// The instruction set of the calculation VM as functions on its state: the
// operand decoders, one function per opcode handler, the dispatch of
// executeStep, and the outcome of one step (ran, idle, an exception that
// escapes the step, or behaviour the C++ language leaves undefined).

module VmSemantics {
  import opened Base
  import opened SharedMemory
  import opened AddressStack
  import opened PidController

  // ---- encoding --------------------------------------------------------------

  const OP_HALT: u8 := 0x00
  const OP_ADD: u8 := 0x01
  const OP_SUB: u8 := 0x02
  const OP_MUL: u8 := 0x03
  const OP_DIV: u8 := 0x04
  const OP_MOD: u8 := 0x05
  const OP_AND: u8 := 0x10
  const OP_OR: u8 := 0x11
  const OP_NOT: u8 := 0x12
  const OP_XOR: u8 := 0x13
  const OP_LSHIFT: u8 := 0x14
  const OP_RSHIFT: u8 := 0x15
  const OP_LOAD: u8 := 0x20
  const OP_MULTILOAD: u8 := 0x21
  const OP_PUSH: u8 := 0x30
  const OP_POP: u8 := 0x31
  const OP_COPY: u8 := 0x40
  const OP_JUMP: u8 := 0x51
  const OP_COMPARE: u8 := 0x52
  const OP_CALL: u8 := 0x53
  const OP_RETURN: u8 := 0x54
  const OP_TIME: u8 := 0x60
  const OP_COMPARETIME: u8 := 0x61
  const OP_URLMAP: u8 := 0x70
  const OP_URLMAPCHECK: u8 := 0x71
  const OP_URLMAPDELETE: u8 := 0x72
  const OP_PIDINIT: u8 := 0x80
  const OP_PIDCLEAR: u8 := 0x82
  const OP_PIDSTOP: u8 := 0x83
  const OP_PIDRUN: u8 := 0x84
  const OP_RESET: u8 := 0xFF

  /** The type byte: bits 1-3 the operand type, bit 0 literal or address,
    * bits 4-7 a map or PID id. */
  const OPTYPE_MASK: u8 := 0x0E
  const TYPE_UINT32: u8 := 0x00
  const TYPE_DEC: u8 := 0x02
  const TYPE_UINT8: u8 := 0x04
  const TYPE_UINT16: u8 := 0x06
  const ADDRESS_MASK: u8 := 0x01
  const ADDRESS: u8 := 0x00
  const LITERAL: u8 := 0x01

  /** URLMAP options: where the URL and the resource string are. */
  const MAP_OPTION_URL_MASK: u8 := 0x01
  const MAP_OPTION_URL_LITERAL: u8 := 0x01
  const MAP_OPTION_RESOURCE_MASK: u8 := 0x02
  const MAP_OPTION_RESOURCE_LITERAL: u8 := 0x02

  const FLAG_HALTED: u8 := 0x01
  const FLAG_ERROR: u8 := 0x02
  const FLAG_DIVIDEZERO: u8 := 0x04

  /** The codes ORed into the low byte of the status code. */
  const ERROR_RESET: u32 := 1
  const ERROR_DIVIDEZERO: u32 := 2
  const ERROR_UNSUPPORTED_OPERAND: u32 := 3
  const ERROR_UNSUPPORTED_OPERATION: u32 := 4
  const ERROR_MEMORY_EXCEPTION: u32 := 5
  const ERROR_ID_UNAVAILABLE: u32 := 6
  const ERROR_PID_INIT: u32 := 7

  /** VM_PID_NUM_AVAILABLE. */
  const PID_COUNT: nat := 3

  datatype OperandType = UInt8 | UInt16 | UInt32 | Dec

  /** The operand type named by the type bits; the four patterns from 0x08
    * on name none. */
  function TypeOf(optype: u8): Option<OperandType>
  {
    var t := And8(optype, OPTYPE_MASK);
    if t == TYPE_UINT8 then Some(UInt8)
    else if t == TYPE_UINT16 then Some(UInt16)
    else if t == TYPE_UINT32 then Some(UInt32)
    else if t == TYPE_DEC then Some(Dec)
    else None
  }

  /** rational_t is as wide as uint32_t. */
  function WidthOf(t: OperandType): Width
  {
    match t
    case UInt8 => W8
    case UInt16 => W16
    case UInt32 => W32
    case Dec => W32
  }

  predicate IsLiteral(optype: u8)
  {
    And8(optype, ADDRESS_MASK) == LITERAL
  }

  // ---- machine state -----------------------------------------------------------

  /** What a handler produces: a value and the state reached, or an exception
    * together with the state in which it was raised. */
  datatype Exec<T, S> = Next(value: T, state: S) | Stop(fault: Fault, state: S)
  {
    predicate IsFailure() { Stop? }

    function PropagateFailure<U>(): Exec<U, S>
      requires Stop?
    {
      Stop(fault, state)
    }

    function Extract(): (T, S)
      requires Next?
    {
      (value, state)
    }

    /** The same outcome, answering `u` when it is not an exception. */
    function Answer<U>(u: U): (r: Exec<U, S>)
      ensures r.state == state && r.Next? == Next? && (r.Next? ==> r.value == u)
      ensures r.Stop? ==> r.fault == fault
    {
      match this
      case Next(_, s) => Next(u, s)
      case Stop(f, s) => Stop(f, s)
    }
  }

  /** The memory and the three registers of a VM object. */
  datatype Cpu = Cpu(mem: MemState, pc: u16, flags: u8, status: u32)
  {
    predicate Valid()
    {
      mem.Valid()
    }

    predicate Halted()
    {
      And8(flags, FLAG_HALTED) != 0
    }

    /** `statuscode |= code`. */
    function Report(code: u32): Cpu
    {
      this.(status := Or32(status, code))
    }

    /** `flags |= VM_FLAG_ERROR | VM_FLAG_HALTED`. */
    function HaltWithError(): Cpu
    {
      this.(flags := Or8(flags, Or8(FLAG_ERROR, FLAG_HALTED)))
    }

    /** `programcounter += k` on uint16_t. */
    function Advance(k: nat): Cpu
    {
      this.(pc := Add16(pc, k))
    }

    function Read(a: u16, w: Width): (r: Exec<nat, Cpu>)
      requires Valid()
      ensures r.state == this
      ensures r.Next? <==> a + Size(w) <= MEMORY_SIZE
      ensures r.Next? ==> r.value < Limit(w) && Ok(r.value) == mem.Load(a, w)
    {
      match mem.Load(a, w)
      case Ok(v) => Next(v, this)
      case Err(f) => Stop(f, this)
    }

    function Write(a: u16, w: Width, v: nat): (r: Exec<(), Cpu>)
      requires Valid() && v < Limit(w)
      ensures r.state.Valid()
      ensures r.Next? <==> a + Size(w) <= MEMORY_SIZE
      ensures r.Next? ==> Ok(r.state.mem) == mem.Store(a, w, v)
      ensures r.state == this.(mem := r.state.mem)
      ensures r.Stop? ==> r.state == this
    {
      match mem.Store(a, w, v)
      case Ok(m) => Next((), this.(mem := m))
      case Err(f) => Stop(f, this)
    }
  }

  /** The array of VM_PID_NUM_AVAILABLE (3) controllers the VM drives,
    * indexed by id. */
  datatype Bank = Bank(pid0: PidState, pid1: PidState, pid2: PidState)
  {
    predicate Valid()
    {
      pid0.Valid() && pid1.Valid() && pid2.Valid()
    }

    function Get(i: nat): PidState
      requires i < PID_COUNT
    {
      if i == 0 then pid0 else if i == 1 then pid1 else pid2
    }

    function Set(i: nat, p: PidState): Bank
      requires i < PID_COUNT
    {
      if i == 0 then this.(pid0 := p) else if i == 1 then this.(pid1 := p) else this.(pid2 := p)
    }

    /** Every controller cleared. */
    function Clear(): Bank
    {
      Bank(pid0.Clear(), pid1.Clear(), pid2.Clear())
    }
  }

  /** A VM with its memory, its address stack and its bank of PIDs. */
  datatype Machine = Machine(cpu: Cpu, stack: StackState, pids: Bank)
  {
    predicate Valid()
    {
      cpu.Valid() && stack.Valid() && pids.Valid()
    }
  }

  /** The outside world a step reads: the clock in microseconds and the
    * arithmetic of rational_t. */
  datatype Env = Env(now: u32, dec: DecArith)

  /** A method's answer and the state it leaves, as an outcome. */
  function Lift<T, S>(r: Result<T>, s: S): (e: Exec<T, S>)
    ensures e.state == s && e.Next? == r.Ok?
    ensures e.Next? ==> e.value == r.value
    ensures e.Stop? ==> e.fault == r.fault
  {
    match r
    case Ok(v) => Next(v, s)
    case Err(f) => Stop(f, s)
  }

  /** Runs a decoder or handler on the memory and registers of `m`. */
  function OnCpu<T>(m: Machine, e: Exec<T, Cpu>): (r: Exec<T, Machine>)
    requires m.Valid() && e.state.Valid()
    ensures r.state.Valid() && r.state == m.(cpu := e.state)
    ensures r.Next? == e.Next? && (r.Next? ==> r.value == e.value)
    ensures r.Stop? ==> r.fault == e.fault
  {
    match e
    case Next(v, c) => Next(v, m.(cpu := c))
    case Stop(f, c) => Stop(f, m.(cpu := c))
  }

  // ---- operand decoders --------------------------------------------------------

  /** get_optype and get_number: the byte after the program counter, which
    * moves onto it first. */
  function FetchByte(c: Cpu): (r: Exec<u8, Cpu>)
    requires c.Valid()
    ensures r.state == c.Advance(1)
    ensures r.Next? <==> Add16(c.pc, 1) < MEMORY_SIZE
    ensures r.Next? ==> r.value == c.mem.bytes[Add16(c.pc, 1)]
  {
    var c1 := c.Advance(1);
    var (v, _) :- c1.Read(c1.pc, W8);
    assert c1.mem.bytes[c1.pc..c1.pc + 1] == [c1.mem.bytes[c1.pc]];
    Next(v, c1)
  }

  /** get_address: the little-endian 16-bit value after the program counter;
    * the counter ends on its second byte. A load that fails leaves the
    * counter on the first byte. */
  function GetAddress(c: Cpu): (r: Exec<u16, Cpu>)
    requires c.Valid()
    ensures r.Next? <==> Add16(c.pc, 1) + 2 <= MEMORY_SIZE
    ensures r.state == (if r.Next? then c.Advance(1).Advance(1) else c.Advance(1))
    ensures r.Next? ==> var a: int := Add16(c.pc, 1);
                        r.value == c.mem.bytes[a] as int + 0x100 * c.mem.bytes[a + 1] as int
  {
    var c1 := c.Advance(1);
    var (v, _) :- c1.Read(c1.pc, W16);
    var bs := c1.mem.bytes[c1.pc..c1.pc + 2];
    assert bs[1..][1..] == [];
    assert DecodeLE(bs[1..]) == bs[1];
    Next(v, c1.Advance(1))
  }

  /** The number of bytes a literal of type `optype` occupies in the
    * instruction; one for a type the decoder does not know. */
  function LiteralSize(optype: u8): nat
  {
    match TypeOf(optype)
    case Some(t) => Size(WidthOf(t))
    case None => 1
  }

  /** get_operandaddress: a literal operand lies in the instruction itself,
    * at the byte after the program counter, and the counter moves to its
    * last byte (an unknown type reports an unsupported operand); any other
    * operand is an address read by get_address. */
  function GetOperandAddress(c: Cpu, optype: u8): (r: Exec<u16, Cpu>)
    requires c.Valid()
    ensures r.state.Valid()
    ensures IsLiteral(optype) ==> r.Next? && r.value == Add16(c.pc, 1)
    ensures IsLiteral(optype) ==>
      r.state == (if TypeOf(optype).Some? then c else c.Report(ERROR_UNSUPPORTED_OPERAND))
                 .(pc := Add16(Add16(c.pc, 1), LiteralSize(optype) - 1))
    ensures !IsLiteral(optype) ==> r == GetAddress(c)
  {
    if IsLiteral(optype) then
      var c1 := c.Advance(1);
      match TypeOf(optype)
      case Some(t) => Next(c1.pc, c1.Advance(Size(WidthOf(t)) - 1))
      case None => Next(c1.pc, c1.Report(ERROR_UNSUPPORTED_OPERAND))
    else
      GetAddress(c)
  }

  // ---- arithmetic --------------------------------------------------------------

  datatype ArithOp = Add | Sub | Mul | Div | Mod
  datatype BitOp = And | Or | Xor | LShift | RShift
  /** The two-operand instructions: the arithmetic ones are defined on every
    * operand type, the bitwise ones only on the unsigned types. */
  datatype BinaryOp = Arith(a: ArithOp) | Bits(b: BitOp)

  /** What a two-operand instruction computes: a value for the destination,
    * the division-by-zero report, or behaviour C++ leaves undefined. */
  datatype Calc = Value(v: nat) | DivideByZero | UndefinedResult

  function Pow2(n: nat): (r: nat)
    ensures r > 0
  {
    if n == 0 then 1 else 2 * Pow2(n - 1)
  }

  /** A value truncated to a width, as a store of a promoted result does. */
  function Wrap(v: int, w: Width): (r: nat)
    ensures r < Limit(w)
  {
    v % Limit(w)
  }

  /** Unsigned division, which never exceeds the dividend. */
  function Quotient(x: nat, y: nat): (r: nat)
    requires y > 0
    ensures r <= x
  {
    DivIsSmaller(x, y);
    x / y
  }

  lemma DivIsSmaller(x: nat, d: nat)
    requires d > 0
    ensures x / d <= x
  {
    var q := x / d;
    assert q * d + x % d == x;
    assert q <= q * d by {
      if q > 0 {
        MulMonotone(q, d);
      }
    }
  }

  lemma MulMonotone(q: nat, d: nat)
    requires q > 0 && d > 0
    ensures q <= q * d
  {
  }

  /** Arithmetic on the unsigned types: the operands are promoted, the result
    * is truncated to the width on the store; `%` by zero is undefined. */
  function IntArith(op: ArithOp, w: Width, x: nat, y: nat): (r: Calc)
    requires x < Limit(w) && y < Limit(w)
    ensures r.Value? ==> r.v < Limit(w)
    ensures r == DivideByZero <==> op == Div && y == 0
    ensures r == UndefinedResult <==> op == Mod && y == 0
  {
    match op
    case Add => Value(Wrap(x + y, w))
    case Sub => Value(Wrap(x - y, w))
    case Mul => Value(Wrap(x * y, w))
    case Div => if y == 0 then DivideByZero else Value(Quotient(x, y))
    case Mod => if y == 0 then UndefinedResult else Value(x % y)
  }

  /** Arithmetic on rational_t: the fixed-point library's operators; DIV
    * checks the divisor against 0 first, MOD goes through fmod. */
  function DecArithmetic(op: ArithOp, x: u32, y: u32, dec: DecArith): (r: Calc)
    ensures r.Value? ==> r.v < Limit(W32)
    ensures r == DivideByZero <==> op == Div && y == 0
    ensures r != UndefinedResult
  {
    match op
    case Add => Value(dec.add(x, y))
    case Sub => Value(dec.sub(x, y))
    case Mul => Value(dec.mul(x, y))
    case Div => if y == 0 then DivideByZero else Value(dec.div(x, y))
    case Mod => Value(dec.fmod(x, y))
  }

  /** `&`, `|` and `^` on operands of one width. */
  function Logic(op: BitOp, w: Width, x: nat, y: nat): (r: nat)
    requires op == And || op == Or || op == Xor
    requires x < Limit(w) && y < Limit(w)
    ensures r < Limit(w)
  {
    match w
    case W8 =>
      var (p, q) := (x as bv8, y as bv8);
      (if op == And then p & q else if op == Or then p | q else p ^ q) as nat
    case W16 =>
      var (p, q) := (x as bv16, y as bv16);
      (if op == And then p & q else if op == Or then p | q else p ^ q) as nat
    case W32 =>
      var (p, q) := (x as bv32, y as bv32);
      (if op == And then p & q else if op == Or then p | q else p ^ q) as nat
  }

  /** The bitwise instructions on the unsigned types. A shift count of 32 or
    * more exceeds the width of the promoted operand and is undefined; a
    * left shift is truncated to the width on the store. */
  function BitArith(op: BitOp, w: Width, x: nat, y: nat): (r: Calc)
    requires x < Limit(w) && y < Limit(w)
    ensures r.Value? ==> r.v < Limit(w)
    ensures r != DivideByZero
    ensures r == UndefinedResult <==> (op == LShift || op == RShift) && y >= 32
  {
    match op
    case LShift => if y >= 32 then UndefinedResult else Value(Wrap(x * Pow2(y), w))
    case RShift => if y >= 32 then UndefinedResult else Value(Quotient(x, Pow2(y)))
    case _ => Value(Logic(op, w, x, y))
  }

  /** The value a two-operand instruction computes from the destination `x`
    * and the operand `y`, both of type `t`. */
  function Calculate(op: BinaryOp, t: OperandType, x: nat, y: nat, dec: DecArith): (r: Calc)
    requires x < Limit(WidthOf(t)) && y < Limit(WidthOf(t))
    requires t == Dec ==> op.Arith?
    ensures r.Value? ==> r.v < Limit(WidthOf(t))
  {
    match op
    case Arith(a) => if t == Dec then DecArithmetic(a, x, y, dec) else IntArith(a, WidthOf(t), x, y)
    case Bits(b) => BitArith(b, WidthOf(t), x, y)
  }

  // ---- handlers on memory and registers -----------------------------------------

  /** The operands of a two-operand instruction and of LOAD. */
  datatype Operands = Operands(optype: u8, address: u16, operand: u16)

  /** Decodes type byte, destination address and operand; only the counter
    * moves (and an unknown literal type is reported). */
  function DecodeOperands(c: Cpu): (r: Exec<Operands, Cpu>)
    requires c.Valid()
    ensures r.state.Valid() && r.state.mem == c.mem && r.state.flags == c.flags
  {
    var (optype, c1) :- FetchByte(c);
    var (address, c2) :- GetAddress(c1);
    var (operand, c3) :- GetOperandAddress(c2, optype);
    Next(Operands(optype, address, operand), c3)
  }

  /** handleADD ... handleRSHIFT: decode type, destination address and
    * operand; an unknown type, or a bitwise instruction on DEC, reports an
    * unsupported operand before any load; otherwise the destination becomes
    * `x op y`, and a zero divisor sets the DIVIDEZERO flag and reports it
    * instead. */
  function Binary(c: Cpu, op: BinaryOp, dec: DecArith): (r: Exec<bool, Cpu>)
    requires c.Valid()
    ensures r.state.Valid()
    ensures r.state.mem.maps == c.mem.maps
    ensures r.state.flags == c.flags || r.state.flags == Or8(c.flags, FLAG_DIVIDEZERO)
  {
    var (o, c1) :- DecodeOperands(c);
    match TypeOf(o.optype)
    case None => Next(false, c1.Report(ERROR_UNSUPPORTED_OPERAND))
    case Some(t) =>
      if t == Dec && op.Bits? then Next(false, c1.Report(ERROR_UNSUPPORTED_OPERAND))
      else
        var w := WidthOf(t);
        var (x, _) :- c1.Read(o.address, w);
        var (y, _) :- c1.Read(o.operand, w);
        match Calculate(op, t, x, y, dec)
        case Value(v) => c1.Write(o.address, w, v).Answer(true)
        case DivideByZero =>
          Next(false, c1.(flags := Or8(c1.flags, FLAG_DIVIDEZERO)).Report(ERROR_DIVIDEZERO))
        case UndefinedResult => Stop(Undefined, c1)
  }

  /** `~x` in a width of `w`, as C++ computes it after promotion and
    * truncation on the store: every bit of the width inverted. */
  function Complement(w: Width, x: nat): (r: nat)
    requires x < Limit(w)
    ensures r < Limit(w)
  {
    Limit(w) - 1 - x
  }

  /** handleNOT: the destination becomes its one's complement in its own
    * width (`x ^ -1`, truncated on the store). */
  function Not(c: Cpu): (r: Exec<bool, Cpu>)
    requires c.Valid()
    ensures r.state.Valid()
    ensures r.state.mem.maps == c.mem.maps && r.state.flags == c.flags
  {
    var (optype, c1) :- FetchByte(c);
    var (address, c2) :- GetAddress(c1);
    match TypeOf(optype)
    case None => Next(false, c2.Report(ERROR_UNSUPPORTED_OPERAND))
    case Some(t) =>
      if t == Dec then Next(false, c2.Report(ERROR_UNSUPPORTED_OPERAND))
      else
        var w := WidthOf(t);
        var (x, _) :- c2.Read(address, w);
        c2.Write(address, w, Complement(w, x)).Answer(true)
  }

  /** handleLOAD: the destination receives the operand. */
  function Load(c: Cpu): (r: Exec<bool, Cpu>)
    requires c.Valid()
    ensures r.state.Valid()
    ensures r.state.mem.maps == c.mem.maps && r.state.flags == c.flags
  {
    var (o, c1) :- DecodeOperands(c);
    match TypeOf(o.optype)
    case None => Next(false, c1.Report(ERROR_UNSUPPORTED_OPERAND))
    case Some(t) =>
      var w := WidthOf(t);
      var (x, _) :- c1.Read(o.operand, w);
      c1.Write(o.address, w, x).Answer(true)
  }

  /** handleMULTILOAD: `count` operands, each decoded afresh, go to
    * consecutive cells of their width from the destination on. */
  function MultiLoad(c: Cpu): (r: Exec<bool, Cpu>)
    requires c.Valid()
    ensures r.state.Valid()
    ensures r.state.mem.maps == c.mem.maps && r.state.flags == c.flags
  {
    var (optype, c1) :- FetchByte(c);
    var (address, c2) :- GetAddress(c1);
    var (count, c3) :- FetchByte(c2);
    match TypeOf(optype)
    case None => Next(false, c3.Report(ERROR_UNSUPPORTED_OPERAND))
    case Some(t) =>
      LoadEach(c3, optype, WidthOf(t), address, count, 0).Answer(true)
  }

  /** Iterations `i` to `count - 1` of the MULTILOAD loop; iteration `i`
    * stores at `address + i * size`, wrapped to uint16_t. */
  function LoadEach(c: Cpu, optype: u8, w: Width, address: u16, count: nat, i: nat): (r: Exec<(), Cpu>)
    requires c.Valid() && i <= count
    ensures r.state.Valid()
    ensures r.state.mem.maps == c.mem.maps && r.state.flags == c.flags
    decreases count - i
  {
    if i == count then Next((), c)
    else
      var (operand, c1) :- GetOperandAddress(c, optype);
      var (x, _) :- c1.Read(operand, w);
      var (_, c2) :- c1.Write(Add16(address, i * Size(w)), w, x);
      LoadEach(c2, optype, w, address, count, i + 1)
  }

  /** handleCOPY: source address, length byte, destination address, then
    * Memory's copy. */
  function Copy(c: Cpu): (r: Exec<bool, Cpu>)
    requires c.Valid()
    ensures r.state.Valid()
    ensures r.state.mem.maps == c.mem.maps && r.state.flags == c.flags
  {
    var (src, c1) :- GetAddress(c);
    var (len, c2) :- FetchByte(c1);
    var (dest, c3) :- GetAddress(c2);
    match c3.mem.Copy(src, len, dest)
    case Err(f) => Stop(f, c3)
    case Ok(mem) => Next(true, c3.(mem := mem))
  }

  /** handleJUMP as its comment describes it ("always a 16-bit address"):
    * the operand is decoded as a 16-bit address and the new program counter
    * is the 16-bit value stored there. The machine runs JumpAsWritten. */
  function Jump(c: Cpu): (r: Exec<bool, Cpu>)
    requires c.Valid()
    ensures r.state.Valid()
    ensures r.state.mem == c.mem && r.state.flags == c.flags
  {
    var (optype, c1) :- FetchByte(c);
    var (operand, c2) :- GetOperandAddress(c1, Or8(optype, TYPE_UINT16));
    var (target, _) :- c2.Read(operand, W16);
    Next(true, c2.(pc := target))
  }

  /** handleJUMP as written, which executeStep runs: the target is fetched
    * with Memory::load, which reads a single byte, although the operand is
    * decoded as a 16-bit one. */
  function JumpAsWritten(c: Cpu): (r: Exec<bool, Cpu>)
    requires c.Valid()
    ensures r.state.Valid()
    ensures r.state.mem == c.mem && r.state.flags == c.flags
    ensures r.Next? ==> r.state.pc < 0x100
  {
    var (optype, c1) :- FetchByte(c);
    var (operand, c2) :- GetOperandAddress(c1, Or8(optype, TYPE_UINT16));
    var (target, _) :- c2.Read(operand, W8);
    Next(true, c2.(pc := target))
  }

  datatype Ordering = Less | Equal | Greater

  /** The tri-state comparison of COMPARE: unsigned for the integer types,
    * the signed order of rational_t for DEC. */
  function Compare(t: OperandType, x: nat, y: nat): (r: Ordering)
    requires x < Limit(WidthOf(t)) && y < Limit(WidthOf(t))
    ensures t != Dec ==> (r == Less <==> x < y) && (r == Equal <==> x == y) && (r == Greater <==> x > y)
    ensures t == Dec ==> (r == Less <==> DecLess(x, y)) && (r == Equal <==> x == y)
                         && (r == Greater <==> DecLess(y, x))
  {
    if t == Dec then
      if DecLess(x, y) then Less else if DecLess(y, x) then Greater else Equal
    else
      if x < y then Less else if x > y then Greater else Equal
  }

  /** The three jump targets of COMPARE are always 16-bit literals. */
  function TargetType(optype: u8): (r: u8)
    ensures IsLiteral(r)
  {
    var r := Or8(optype, Or8(LITERAL, TYPE_UINT16));
    assert ((optype as bv8) | 7) & 1 == 1;
    r
  }

  /** The operands of COMPARE: its type byte, the two value addresses and
    * the jump targets for less, equal and greater. */
  datatype CompareOperands = CompareOperands(
    optype: u8, address: u16, operand: u16, smaller: u16, equal: u16, greater: u16)

  /** Decodes COMPARE: both value operands, then three targets, always
    * decoded as 16-bit literals. */
  function DecodeCompare(c: Cpu): (r: Exec<CompareOperands, Cpu>)
    requires c.Valid()
    ensures r.state.Valid()
    ensures r.state.mem == c.mem && r.state.flags == c.flags
  {
    var (optype, c1) :- FetchByte(c);
    var (address, c2) :- GetAddress(c1);
    var (operand, c3) :- GetOperandAddress(c2, optype);
    var smaller := GetOperandAddress(c3, TargetType(optype));
    var equal := GetOperandAddress(smaller.state, TargetType(optype));
    var greater := GetOperandAddress(equal.state, TargetType(optype));
    Next(CompareOperands(optype, address, operand, smaller.value, equal.value, greater.value),
         greater.state)
  }

  /** handleCOMPARE: the counter becomes the 16-bit value stored at the
    * target for less, equal or greater. */
  function CompareJump(c: Cpu): (r: Exec<bool, Cpu>)
    requires c.Valid()
    ensures r.state.Valid()
    ensures r.state.mem == c.mem && r.state.flags == c.flags
  {
    var (o, c1) :- DecodeCompare(c);
    match TypeOf(o.optype)
    case None => Next(false, c1.Report(ERROR_UNSUPPORTED_OPERAND))
    case Some(t) =>
      var (x, _) :- c1.Read(o.address, WidthOf(t));
      var (y, _) :- c1.Read(o.operand, WidthOf(t));
      var target := match Compare(t, x, y)
        case Less => o.smaller
        case Equal => o.equal
        case Greater => o.greater;
      var (pc, _) :- c1.Read(target, W16);
      Next(true, c1.(pc := pc))
  }

  /** handleTIME: the clock, in microseconds, goes to a 32-bit cell. */
  function Time(c: Cpu, now: u32): (r: Exec<bool, Cpu>)
    requires c.Valid()
    ensures r.state.Valid()
    ensures r.state.mem.maps == c.mem.maps && r.state.flags == c.flags
  {
    var (address, c1) :- GetAddress(c);
    c1.Write(address, W32, now).Answer(true)
  }

  /** Whether `period` milliseconds have passed since the microsecond
    * stamp `stamp` at clock reading `now`, with the difference and the
    * conversion to microseconds both wrapping in uint32_t. */
  predicate TimedOut(now: u32, stamp: u32, period: u32)
  {
    Sub32(now, stamp) >= (period * 1000) % 0x1_0000_0000
  }

  /** handleCOMPARETIME: jump to the first target once `timeout`
    * milliseconds have passed since the stamp at `address`, otherwise to
    * the second; the difference and the product wrap in uint32_t. */
  function CompareTime(c: Cpu, now: u32): (r: Exec<bool, Cpu>)
    requires c.Valid()
    ensures r.state.Valid()
    ensures r.state.mem == c.mem && r.state.flags == c.flags
  {
    var (address, c1) :- GetAddress(c);
    var timeout := GetOperandAddress(c1, Or8(TYPE_UINT32, LITERAL));
    var (jump1, c2) :- GetAddress(timeout.state);
    var (jump2, c3) :- GetAddress(c2);
    var (stamp, _) :- c3.Read(address, W32);
    var (period, _) :- c3.Read(timeout.value, W32);
    Next(true, c3.(pc := if TimedOut(now, stamp, period) then jump1 else jump2))
  }

  /** Where a measure of the NUL scan comes from: the counter moves up to the
    * end of memory, or wraps once from 0xFFFF to 0. */
  function ScanRoom(pc: u16): nat
  {
    if pc == 0xFFFF then MEMORY_SIZE + 1 else if pc < MEMORY_SIZE then MEMORY_SIZE - pc else 0
  }

  /** Each byte the scan reads brings it closer to the end of memory. */
  lemma ScanRoomShrinks(pc: u16)
    requires Add16(pc, 1) < MEMORY_SIZE
    ensures ScanRoom(Add16(pc, 1)) < ScanRoom(pc)
  {
    if pc == 0xFFFF {
      assert Add16(pc, 1) == 0;
    } else {
      assert Add16(pc, 1) == pc + 1;
    }
  }

  /** `while(memory->load(++programcounter) != 0x00);` */
  function ScanNul(c: Cpu): (r: Exec<(), Cpu>)
    requires c.Valid()
    ensures r.state == c.(pc := r.state.pc)
    ensures r.Next? ==> r.state.pc < MEMORY_SIZE && c.mem.bytes[r.state.pc] == 0
    decreases ScanRoom(c.pc)
  {
    var (b, c1) :- FetchByte(c);
    if b == 0 then Next((), c1)
    else
      ScanRoomShrinks(c.pc);
      ScanNul(c1)
  }

  /** A URL or resource operand of URLMAP: a string inside the instruction,
    * whose start is returned and which is scanned to its NUL, or the
    * address of a string elsewhere. */
  function StringOperand(c: Cpu, literal: bool): (r: Exec<u16, Cpu>)
    requires c.Valid()
    ensures r.state.Valid()
    ensures r.state.mem == c.mem && r.state.flags == c.flags
  {
    if literal then
      var start := GetOperandAddress(c, Or8(LITERAL, TYPE_UINT8));
      var (_, c1) :- ScanNul(start.state);
      Next(start.value, c1)
    else
      GetOperandAddress(c, ADDRESS)
  }

  /** The operands of URLMAP: the type byte (with the map id), the options,
    * the value address, the port, and where the URL and the resource
    * strings start. */
  datatype MapOperands = MapOperands(
    optype: u8, options: u8, valueAddress: u16, port: u16, url: u16, resource: u16)

  /** Decodes URLMAP; a string given inside the instruction is skipped up
    * to its NUL. */
  function DecodeUrlMap(c: Cpu): (r: Exec<MapOperands, Cpu>)
    requires c.Valid()
    ensures r.state.Valid()
    ensures r.state.mem == c.mem && r.state.flags == c.flags
  {
    var (optype, c1) :- FetchByte(c);
    var (options, c2) :- FetchByte(c1);
    var (valueAddress, c3) :- GetAddress(c2);
    var (port, c4) :- GetAddress(c3);
    var (url, c5) :- StringOperand(c4, And8(options, MAP_OPTION_URL_MASK) == MAP_OPTION_URL_LITERAL);
    var (resource, c6) :-
      StringOperand(c5, And8(options, MAP_OPTION_RESOURCE_MASK) == MAP_OPTION_RESOURCE_LITERAL);
    Next(MapOperands(optype, options, valueAddress, port, url, resource), c6)
  }

  /** handleURLMAP: the mapping is entered in the table under the id in
    * the high nibble of the type byte. */
  function UrlMap(c: Cpu): (r: Exec<bool, Cpu>)
    requires c.Valid()
    ensures r.state.Valid()
    ensures r.state.mem.bytes == c.mem.bytes && r.state.flags == c.flags
  {
    var (o, c1) :- DecodeUrlMap(c);
    var mem := c1.mem.Map(HighNibble(o.optype), o.optype, o.options, o.valueAddress, o.port,
                          o.url, o.resource).value;
    Next(true, c1.(mem := mem))
  }

  /** handleURLMAPCHECK: the status of the mapping goes to a byte cell; a
    * finished once-only mapping is removed first. */
  function UrlMapCheck(c: Cpu): (r: Exec<bool, Cpu>)
    requires c.Valid()
    ensures r.state.Valid()
    ensures r.state.flags == c.flags
  {
    var (optype, c1) :- FetchByte(c);
    var (address, c2) :- GetAddress(c1);
    var (status, mem) := c2.mem.CheckMap(HighNibble(optype), true).value;
    c2.(mem := mem).Write(address, W8, status).Answer(true)
  }

  /** handleURLMAPDELETE. */
  function UrlMapDelete(c: Cpu): (r: Exec<bool, Cpu>)
    requires c.Valid()
    ensures r.state.Valid()
    ensures r.state.mem.bytes == c.mem.bytes && r.state.flags == c.flags
  {
    var (optype, c1) :- FetchByte(c);
    Next(true, c1.(mem := c1.mem.Unmap(HighNibble(optype)).value))
  }

  /** handleHALT: only the HALTED flag. */
  function Halt(c: Cpu): (r: Cpu)
    ensures r.Halted() && r == c.(flags := r.flags)
  {
    assert ((c.flags as bv8) | 1) & 1 == 1;
    c.(flags := Or8(c.flags, FLAG_HALTED))
  }

  // ---- handlers on the whole machine ---------------------------------------------

  /** handleCALL: the address after the instruction is pushed (the counter
    * is moved there first) and the counter jumps to the target. */
  function Call(m: Machine): (r: Exec<bool, Machine>)
    requires m.Valid()
    ensures r.state.Valid()
    ensures r.state.cpu.mem == m.cpu.mem && r.state.cpu.flags == m.cpu.flags
    ensures r.state.pids == m.pids
  {
    var (address, m1) :- OnCpu(m, GetAddress(m.cpu));
    var ret := Add16(m1.cpu.pc, 1);
    var m2 := m1.(cpu := m1.cpu.(pc := ret));
    match m2.stack.Push(ret)
    case Err(f) => Stop(f, m2)
    case Ok(s) => Next(true, m2.(stack := s, cpu := m2.cpu.(pc := address)))
  }

  /** handleRETURN: the counter becomes the popped address. */
  function Return(m: Machine): (r: Exec<bool, Machine>)
    requires m.Valid()
    ensures r.state.Valid()
    ensures r.state.cpu.mem == m.cpu.mem && r.state.cpu.flags == m.cpu.flags
    ensures r.state.pids == m.pids
  {
    match m.stack.Pop()
    case Err(f) => Stop(f, m)
    case Ok((address, s)) => Next(true, m.(stack := s, cpu := m.cpu.(pc := address)))
  }

  /** The arguments of PIDINIT as init receives them. */
  datatype PidArgs = PidArgs(
    input: u16, output: u16, setpoint: u16,
    kp: u32, ki: u32, kd: u32, sampleTime: u32,
    lower: u32, upper: u32, direction: u8)

  /** Where the operands of PIDINIT are: three addresses, then the literals
    * of the gains, the sample time, the limits and the direction. */
  datatype PidOperands = PidOperands(
    input: u16, output: u16, setpoint: u16,
    kp: u16, ki: u16, kd: u16, sampleTime: u16,
    lower: u16, upper: u16, direction: u16)

  /** The operands of PIDINIT, then the loads of the literals. */
  function DecodePidInit(c: Cpu): (r: Exec<PidArgs, Cpu>)
    requires c.Valid()
    ensures r.state.Valid()
    ensures r.state.mem == c.mem && r.state.flags == c.flags
  {
    var (o, c1) :- PidOperandsOf(c);
    ReadPidArgs(c1, o)
  }

  /** The operand decoding of PIDINIT: three addresses and seven literals. */
  function PidOperandsOf(c: Cpu): (r: Exec<PidOperands, Cpu>)
    requires c.Valid()
    ensures r.state.Valid()
    ensures r.state.mem == c.mem && r.state.flags == c.flags
  {
    var (input, c1) :- GetAddress(c);
    var (output, c2) :- GetAddress(c1);
    var (setpoint, c3) :- GetAddress(c2);
    var decType := Or8(LITERAL, TYPE_DEC);
    var kp := GetOperandAddress(c3, decType);
    var ki := GetOperandAddress(kp.state, decType);
    var kd := GetOperandAddress(ki.state, decType);
    var st := GetOperandAddress(kd.state, Or8(LITERAL, TYPE_UINT32));
    var lo := GetOperandAddress(st.state, decType);
    var hi := GetOperandAddress(lo.state, decType);
    var dir := GetOperandAddress(hi.state, Or8(LITERAL, TYPE_UINT8));
    Next(PidOperands(input, output, setpoint, kp.value, ki.value, kd.value, st.value,
                     lo.value, hi.value, dir.value), dir.state)
  }

  /** The loads of the literal arguments of PIDINIT, in the order of the
    * handler; the first that leaves memory raises range_error. */
  function ReadPidArgs(c: Cpu, o: PidOperands): (r: Exec<PidArgs, Cpu>)
    requires c.Valid()
    ensures r.state == c
  {
    var (kpv, _) :- c.Read(o.kp, W32);
    var (kiv, _) :- c.Read(o.ki, W32);
    var (kdv, _) :- c.Read(o.kd, W32);
    var (stv, _) :- c.Read(o.sampleTime, W32);
    var (dirv, _) :- c.Read(o.direction, W8);
    var (lov, _) :- c.Read(o.lower, W32);
    var (hiv, _) :- c.Read(o.upper, W32);
    Next(PidArgs(o.input, o.output, o.setpoint, kpv, kiv, kdv, stv, lov, hiv, dirv), c)
  }

  /** The id in the high nibble of the type byte of a PID instruction;
    * `None` after reporting an unavailable id. */
  function PidId(m: Machine): (r: Exec<Option<nat>, Machine>)
    requires m.Valid()
    ensures r.state.Valid()
    ensures r.Next? && r.value.Some? ==> r.value.value < PID_COUNT
  {
    var (optype, m1) :- OnCpu(m, FetchByte(m.cpu));
    var id := HighNibble(optype);
    if id >= PID_COUNT then Next(None, m1.(cpu := m1.cpu.Report(ERROR_ID_UNAVAILABLE)))
    else Next(Some(id), m1)
  }

  /** init of controller `i` with the decoded arguments; a refused init
    * reports PID_INIT. */
  function PidStart(m: Machine, i: nat, a: PidArgs, env: Env): (r: Exec<bool, Machine>)
    requires m.Valid() && i < PID_COUNT
    ensures r.state.Valid()
    ensures r.state.cpu.mem == m.cpu.mem && r.state.cpu.flags == m.cpu.flags
    ensures r.state.stack == m.stack
  {
    var (pid, ok) := m.pids.Get(i).Init(m.cpu.mem, a.input, a.output, a.setpoint,
                                    a.kp, a.ki, a.kd, a.sampleTime, a.direction,
                                    a.lower, a.upper, env.now, env.dec);
    var m1 := m.(pids := m.pids.Set(i, pid));
    if ok then Next(true, m1) else Next(false, m1.(cpu := m1.cpu.Report(ERROR_PID_INIT)))
  }

  /** handlePIDINIT for an available id `i`. */
  function PidInitAt(m: Machine, i: nat, env: Env): (r: Exec<bool, Machine>)
    requires m.Valid() && i < PID_COUNT
    ensures r.state.Valid()
    ensures r.state.cpu.mem == m.cpu.mem && r.state.cpu.flags == m.cpu.flags
    ensures r.state.stack == m.stack
  {
    var (a, m1) :- OnCpu(m, DecodePidInit(m.cpu));
    PidStart(m1, i, a, env)
  }

  /** handlePIDINIT. */
  function PidInit(m: Machine, env: Env): (r: Exec<bool, Machine>)
    requires m.Valid()
    ensures r.state.Valid()
    ensures r.state.cpu.mem == m.cpu.mem && r.state.cpu.flags == m.cpu.flags
    ensures r.state.stack == m.stack
  {
    var (id, m1) :- PidId(m);
    match id
    case None => Next(false, m1)
    case Some(i) => PidInitAt(m1, i, env)
  }

  /** handlePIDCLEAR. */
  function PidClear(m: Machine): (r: Exec<bool, Machine>)
    requires m.Valid()
    ensures r.state.Valid()
    ensures r.state.cpu.mem == m.cpu.mem && r.state.cpu.flags == m.cpu.flags
    ensures r.state.stack == m.stack
  {
    var (id, m1) :- PidId(m);
    match id
    case None => Next(false, m1)
    case Some(i) => Next(true, m1.(pids := m1.pids.Set(i, m1.pids.Get(i).Clear())))
  }

  /** handlePIDSTOP (PID_MANUAL) and handlePIDRUN (PID_AUTOMATIC). */
  function PidSetMode(m: Machine, mode: u8): (r: Exec<bool, Machine>)
    requires m.Valid()
    ensures r.state.Valid()
    ensures r.state.cpu.mem == m.cpu.mem && r.state.cpu.flags == m.cpu.flags
    ensures r.state.stack == m.stack
  {
    var (id, m1) :- PidId(m);
    match id
    case None => Next(false, m1)
    case Some(i) =>
      var res := m1.pids.Get(i).SetMode(m1.cpu.mem, mode);
      var m2 := m1.(pids := m1.pids.Set(i, res.pid));
      match res.out
      case Ok(_) => Next(true, m2)
      case Err(f) => Stop(f, m2)
  }

  /** handleRESET: reports RESET, clears memory, stack and controllers, and
    * fails, so that the machine halts. */
  function Reset(m: Machine): (r: Machine)
    requires m.Valid()
    ensures r.Valid()
  {
    Machine(m.cpu.Report(ERROR_RESET).(mem := Cleared()), ClearedStack(), m.pids.Clear())
  }

  // ---- one step -------------------------------------------------------------------

  /** The handlers whose case in executeStep increments the counter after
    * the handler returns; JUMP, COMPARE, CALL, RETURN, COMPARETIME, HALT and
    * RESET set or keep it themselves. */
  predicate Advances(op: u8)
  {
    op in {OP_ADD, OP_SUB, OP_MUL, OP_DIV, OP_MOD, OP_AND, OP_OR, OP_NOT, OP_XOR,
           OP_LSHIFT, OP_RSHIFT, OP_LOAD, OP_MULTILOAD, OP_PUSH, OP_POP, OP_COPY,
           OP_TIME, OP_URLMAP, OP_URLMAPCHECK, OP_URLMAPDELETE,
           OP_PIDINIT, OP_PIDCLEAR, OP_PIDSTOP, OP_PIDRUN}
  }

  predicate Known(op: u8)
  {
    Advances(op) || op in {OP_JUMP, OP_COMPARE, OP_CALL, OP_RETURN, OP_COMPARETIME, OP_HALT, OP_RESET}
  }

  /** The default case of executeStep's switch: an unknown opcode reports
    * UNSUPPORTED_OPERATION and fails. */
  function Unsupported(m: Machine): (r: Exec<bool, Machine>)
    requires m.Valid()
    ensures r.state.Valid()
  {
    Next(false, m.(cpu := m.cpu.Report(ERROR_UNSUPPORTED_OPERATION)))
  }

  /** The two-operand instruction an opcode names, if any. */
  function BinaryOf(op: u8): Option<BinaryOp>
  {
    if op == OP_ADD then Some(Arith(Add))
    else if op == OP_SUB then Some(Arith(Sub))
    else if op == OP_MUL then Some(Arith(Mul))
    else if op == OP_DIV then Some(Arith(Div))
    else if op == OP_MOD then Some(Arith(Mod))
    else if op == OP_AND then Some(Bits(And))
    else if op == OP_OR then Some(Bits(Or))
    else if op == OP_XOR then Some(Bits(Xor))
    else if op == OP_LSHIFT then Some(Bits(LShift))
    else if op == OP_RSHIFT then Some(Bits(RShift))
    else None
  }

  /** The switch of executeStep for HALT and the arithmetic and logic
    * instructions (opcodes below 0x20). */
  function DispatchCalc(m: Machine, op: u8, env: Env): (r: Exec<bool, Machine>)
    requires m.Valid() && op < 0x20
    ensures r.state.Valid()
    ensures r.state.stack == m.stack && r.state.pids == m.pids
  {
    var c := m.cpu;
    if op == OP_HALT then Next(true, m.(cpu := Halt(c)))
    else if op == OP_NOT then OnCpu(m, Not(c))
    else
      match BinaryOf(op)
      case Some(b) => OnCpu(m, Binary(c, b, env.dec))
      case None => Unsupported(m)
  }

  /** The switch of executeStep for the data and control-flow instructions
    * (opcodes 0x20 to 0x5F). */
  function DispatchFlow(m: Machine, op: u8): (r: Exec<bool, Machine>)
    requires m.Valid() && 0x20 <= op < 0x60
    ensures r.state.Valid()
    ensures r.state.pids == m.pids
    ensures op != OP_CALL && op != OP_RETURN ==> r.state.stack == m.stack
  {
    var c := m.cpu;
    if op == OP_LOAD then OnCpu(m, Load(c))
    else if op == OP_MULTILOAD then OnCpu(m, MultiLoad(c))
    else if op == OP_PUSH || op == OP_POP then Next(false, m)
    else if op == OP_COPY then OnCpu(m, Copy(c))
    else if op == OP_JUMP then OnCpu(m, JumpAsWritten(c))
    else if op == OP_COMPARE then OnCpu(m, CompareJump(c))
    else if op == OP_CALL then Call(m)
    else if op == OP_RETURN then Return(m)
    else Unsupported(m)
  }

  /** The switch of executeStep for the clock, the URL mappings, the
    * controllers and RESET (opcodes 0x60 and above). */
  function DispatchIo(m: Machine, op: u8, env: Env): (r: Exec<bool, Machine>)
    requires m.Valid() && 0x60 <= op
    ensures r.state.Valid()
    ensures op != OP_RESET ==> r.state.stack == m.stack
    ensures op !in {OP_PIDINIT, OP_PIDCLEAR, OP_PIDSTOP, OP_PIDRUN, OP_RESET} ==> r.state.pids == m.pids
  {
    var c := m.cpu;
    if op == OP_TIME then OnCpu(m, Time(c, env.now))
    else if op == OP_COMPARETIME then OnCpu(m, CompareTime(c, env.now))
    else if op == OP_URLMAP then OnCpu(m, UrlMap(c))
    else if op == OP_URLMAPCHECK then OnCpu(m, UrlMapCheck(c))
    else if op == OP_URLMAPDELETE then OnCpu(m, UrlMapDelete(c))
    else if op == OP_PIDINIT then PidInit(m, env)
    else if op == OP_PIDCLEAR then PidClear(m)
    else if op == OP_PIDSTOP then PidSetMode(m, PID_MANUAL)
    else if op == OP_PIDRUN then PidSetMode(m, PID_AUTOMATIC)
    else if op == OP_RESET then Next(false, Reset(m))
    else Unsupported(m)
  }

  /** The switch of executeStep: the handler of `op`, whose answer says
    * whether the instruction succeeded. */
  function Dispatch(m: Machine, op: u8, env: Env): (r: Exec<bool, Machine>)
    requires m.Valid()
    ensures r.state.Valid()
    ensures op !in {OP_CALL, OP_RETURN, OP_RESET} ==> r.state.stack == m.stack
    ensures op !in {OP_PIDINIT, OP_PIDCLEAR, OP_PIDSTOP, OP_PIDRUN, OP_RESET} ==> r.state.pids == m.pids
  {
    if op < 0x20 then DispatchCalc(m, op, env)
    else if op < 0x60 then DispatchFlow(m, op)
    else DispatchIo(m, op, env)
  }

  /** How a call of executeStep ends: nothing done on a halted machine, an
    * instruction run (successfully or not), an overflow_error or
    * underflow_error of the stack that leaves executeStep, or behaviour the
    * C++ language leaves undefined (the state then says nothing). */
  datatype Outcome = Idle | Ran | Escaped(fault: Fault) | UndefinedBehaviour

  /** The status code at the start of an instruction: the counter in the
    * upper half, the opcode in the third byte (`(pc << 16) | (op << 8)`,
    * whose fields do not overlap). */
  function Seed(pc: u16, op: u8): u32
  {
    pc * 0x1_0000 + op * 0x100
  }

  /** The end of executeStep, after the handler of `op` has run: the counter
    * moves past a non-jumping opcode, a handler's `false` or a range_error
    * sets the error and halted flags, and any other exception leaves the
    * step. */
  function Conclude(op: u8, e: Exec<bool, Machine>): (r: (Machine, Outcome))
    requires e.state.Valid()
    ensures r.0.Valid()
    ensures r.1 == Ran <==> e.Next? || e.fault == RangeError
    ensures r.1 == UndefinedBehaviour <==> e.Stop? && e.fault == Undefined
    ensures r.0.stack == e.state.stack && r.0.pids == e.state.pids && r.0.cpu.mem == e.state.cpu.mem
  {
    match e
    case Next(ok, m1) =>
      var m2 := if Advances(op) then m1.(cpu := m1.cpu.Advance(1)) else m1;
      (if ok then m2 else m2.(cpu := m2.cpu.HaltWithError()), Ran)
    case Stop(RangeError, m1) =>
      (m1.(cpu := m1.cpu.Report(ERROR_MEMORY_EXCEPTION).HaltWithError()), Ran)
    case Stop(Undefined, m1) => (m1, UndefinedBehaviour)
    case Stop(f, m1) => (m1, Escaped(f))
  }

  /** executeStep. */
  function Step(m: Machine, env: Env): (r: (Machine, Outcome))
    requires m.Valid()
    ensures r.0.Valid()
    ensures r.1 == Idle <==> m.cpu.Halted()
    ensures r.1 == Idle ==> r.0 == m
  {
    if m.cpu.Halted() then (m, Idle)
    else
      match m.cpu.Read(m.cpu.pc, W8)
      case Stop(_, _) =>
        (m.(cpu := m.cpu.Report(ERROR_MEMORY_EXCEPTION).HaltWithError()), Ran)
      case Next(op, _) =>
        var seeded := m.(cpu := m.cpu.(status := Seed(m.cpu.pc, op)));
        Conclude(op, Dispatch(seeded, op, env))
  }

  /** VM::clear: flags, counter and status code are reset; the stack is not. */
  function ClearCpu(c: Cpu): (r: Cpu)
    ensures r.mem == c.mem && r.pc == 0 && r.flags == 0 && r.status == 0
  {
    c.(pc := 0, flags := 0, status := 0)
  }

  /** setProgram's loop: byte `i` of the program is stored at address `i`;
    * an address past the end of memory raises range_error, which leaves
    * setProgram with the bytes before it stored and the registers kept. */
  function LoadProgram(m: Machine, program: seq<u8>): (r: Exec<(), Machine>)
    requires m.Valid() && |program| < 0x1_0000
    ensures r.state.Valid()
    ensures r.Next? <==> |program| <= MEMORY_SIZE
    ensures r.state.stack == m.stack && r.state.pids == m.pids && r.state.cpu.mem.maps == m.cpu.mem.maps
    ensures forall i :: 0 <= i < |program| && i < MEMORY_SIZE ==> r.state.cpu.mem.bytes[i] == program[i]
  {
    if |program| <= MEMORY_SIZE then
      var bytes := program + m.cpu.mem.bytes[|program|..];
      Next((), m.(cpu := ClearCpu(m.cpu.(mem := m.cpu.mem.(bytes := bytes)))))
    else
      Stop(RangeError, m.(cpu := m.cpu.(mem := m.cpu.mem.(bytes := program[..MEMORY_SIZE]))))
  }
}
