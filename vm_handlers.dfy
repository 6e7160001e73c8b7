// Properties of single instruction handlers, stated on the instruction's
// bytes in memory: what each instruction reads, what it changes, and where
// it leaves the program counter.

module HandlerProperties {
  import opened Base
  import opened SharedMemory
  import opened PidController
  import opened VmSemantics
  import opened VmProperties

  // ---- data movement ----------------------------------------------------------------

  /** Whether byte `b` lies in one of the cells `i` to `count - 1` that the
    * MULTILOAD loop writes from `address` on, each of `w`'s size. */
  predicate InCells(address: u16, w: Width, i: nat, count: nat, b: nat)
    decreases count - i
  {
    i < count
    && ((Add16(address, i * Size(w)) <= b < Add16(address, i * Size(w)) + Size(w))
        || InCells(address, w, i + 1, count, b))
  }

  /** Iterations `i` onwards of the MULTILOAD loop change no byte outside
    * the cells they write, whether they finish or stop on a range error. */
  lemma {:induction false} LoadEachFrame(c: Cpu, optype: u8, w: Width, address: u16, count: nat, i: nat)
    requires c.Valid() && i <= count
    ensures var r := LoadEach(c, optype, w, address, count, i);
      forall b :: 0 <= b < MEMORY_SIZE && !InCells(address, w, i, count, b) ==> r.state.mem.bytes[b] == c.mem.bytes[b]
    decreases count - i
  {
    var r0 := LoadEach(c, optype, w, address, count, i);
    if i == count {
      assert r0.state == c;
    } else {
      var e := GetOperandAddress(c, optype);
      var c1 := e.state;
      if e.Stop? || c1.Read(e.value, w).Stop? {
        assert r0.state == c1 && c1.mem == c.mem;
      } else {
        var v := c1.Read(e.value, w).value;
        var a := Add16(address, i * Size(w));
        var wr := c1.Write(a, w, v);
        if wr.Stop? {
          assert r0.state == c1 && c1.mem == c.mem;
        } else {
          LoadEachUnfolds(c, optype, w, address, count, i);
          LoadEachFrame(wr.state, optype, w, address, count, i + 1);
          forall b | 0 <= b < MEMORY_SIZE && !InCells(address, w, i, count, b)
            ensures r0.state.mem.bytes[b] == c.mem.bytes[b]
          {
            OutsideCells(address, w, i, count, b);
            StoreOutside(c.mem, a, w, v, b);
          }
        }
      }
    }
  }

  /** An iteration of the MULTILOAD loop that stores its operand goes on
    * with the next one. */
  lemma LoadEachUnfolds(c: Cpu, optype: u8, w: Width, address: u16, count: nat, i: nat)
    requires c.Valid() && i < count
    requires GetOperandAddress(c, optype).Next?
    requires var e := GetOperandAddress(c, optype); e.state.Read(e.value, w).Next?
    requires var e := GetOperandAddress(c, optype);
      e.state.Write(Add16(address, i * Size(w)), w, e.state.Read(e.value, w).value).Next?
    ensures var e := GetOperandAddress(c, optype);
      var wr := e.state.Write(Add16(address, i * Size(w)), w, e.state.Read(e.value, w).value);
      LoadEach(c, optype, w, address, count, i) == LoadEach(wr.state, optype, w, address, count, i + 1)
  {
  }

  /** A byte outside cells `i` onwards is outside cell `i` and outside the
    * cells after it. */
  lemma OutsideCells(address: u16, w: Width, i: nat, count: nat, b: nat)
    requires i < count && !InCells(address, w, i, count, b)
    ensures !InCells(address, w, i + 1, count, b)
    ensures !(Add16(address, i * Size(w)) <= b < Add16(address, i * Size(w)) + Size(w))
  {
  }

  /** A store leaves the mappings and every byte outside its cell as they
    * were. */
  lemma StoreOutside(s: MemState, a: u16, w: Width, v: nat, b: nat)
    requires s.Valid() && v < Limit(w) && s.Store(a, w, v).Ok?
    ensures s.Store(a, w, v).value.maps == s.maps
    ensures b < MEMORY_SIZE && !(a <= b < a + Size(w)) ==> s.Store(a, w, v).value.bytes[b] == s.bytes[b]
  {
    StoreFrame(s, a, w, v);
  }

  /** MULTILOAD type dest count (5 bytes, then the operands): an unknown type
    * reports UNSUPPORTED_OPERAND and loads nothing; otherwise the loop
    * changes no mapping, no flag and no byte outside the `count` cells of
    * the type's size from `dest` on. */
  lemma MultiLoadFrame(c: Cpu)
    requires c.Valid() && c.pc + 5 <= MEMORY_SIZE
    ensures var optype, dest, count := c.mem.bytes[c.pc + 1], Word(c.mem, c.pc + 2), c.mem.bytes[c.pc + 4];
      var r := MultiLoad(c);
      (TypeOf(optype).None? ==> r == Next(false, c.(pc := c.pc + 4).Report(ERROR_UNSUPPORTED_OPERAND)))
      && (TypeOf(optype).Some? ==>
            var w := WidthOf(TypeOf(optype).value);
            r.state.mem.maps == c.mem.maps && r.state.flags == c.flags
            && forall b :: 0 <= b < MEMORY_SIZE && !InCells(dest, w, 0, count as nat, b)
                 ==> r.state.mem.bytes[b] == c.mem.bytes[b])
  {
    FetchByteAt(c);
    GetAddressAt(c.(pc := c.pc + 1));
    FetchByteAt(c.(pc := c.pc + 3));
    var optype := c.mem.bytes[c.pc + 1];
    if TypeOf(optype).Some? {
      LoadEachFrame(c.(pc := c.pc + 4), optype, WidthOf(TypeOf(optype).value), Word(c.mem, c.pc + 2),
                    c.mem.bytes[c.pc + 4] as nat, 0);
    }
  }

  /** COPY src len dest (6 bytes): succeeds exactly when both blocks lie in
    * memory and the two-byte guard of Memory::copy lets the addresses
    * through; it then moves the block as memmove does, touches nothing else
    * and leaves the counter on the last byte. A refused copy raises
    * range_error with memory unchanged. */
  lemma CopyInstruction(c: Cpu)
    requires c.Valid() && c.pc + 6 <= MEMORY_SIZE
    ensures var src, len, dest := Word(c.mem, c.pc + 1), c.mem.bytes[c.pc + 3], Word(c.mem, c.pc + 4);
      var r := Copy(c);
      (r.Next? <==> src + len <= MEMORY_SIZE && dest + len <= MEMORY_SIZE && !CopyGuardAsWritten(src, dest))
      && (r.Stop? ==> r == Stop(RangeError, c.(pc := c.pc + 5)))
      && (r.Next? ==>
            r.value && r.state == c.(pc := c.pc + 5, mem := r.state.mem)
            && r.state.mem.maps == c.mem.maps
            && (forall i :: dest <= i < dest + len ==> r.state.mem.bytes[i] == c.mem.bytes[src + (i - dest)])
            && (forall i :: 0 <= i < MEMORY_SIZE && !(dest <= i < dest + len) ==> r.state.mem.bytes[i] == c.mem.bytes[i]))
  {
    var src, len, dest := Word(c.mem, c.pc + 1), c.mem.bytes[c.pc + 3], Word(c.mem, c.pc + 4);
    var c5 := c.(pc := c.pc + 5);
    var m := c.mem.Copy(src, len, dest);
    assert m.Ok? <==> src + len <= MEMORY_SIZE && dest + len <= MEMORY_SIZE && !CopyGuardAsWritten(src, dest);
    assert Copy(c) == if m.Ok? then Next(true, c5.(mem := m.value)) else Stop(RangeError, c5) by {
      CopyDecodes(c);
    }
    if m.Ok? {
      var t := m.value;
      assert t.maps == c.mem.maps
        && (forall i :: dest <= i < dest + len ==> t.bytes[i] == c.mem.bytes[src + (i - dest)])
        && (forall i :: 0 <= i < MEMORY_SIZE && !(dest <= i < dest + len) ==> t.bytes[i] == c.mem.bytes[i]) by {
        CopyMovesBlock(c.mem, src, len, dest);
      }
    }
  }

  /** The operands of COPY: two addresses around a length byte. */
  lemma CopyDecodes(c: Cpu)
    requires c.Valid() && c.pc + 6 <= MEMORY_SIZE
    ensures var src, len, dest := Word(c.mem, c.pc + 1), c.mem.bytes[c.pc + 3], Word(c.mem, c.pc + 4);
      var c5 := c.(pc := c.pc + 5);
      Copy(c) == match c.mem.Copy(src, len, dest)
        case Err(f) => Stop(f, c5)
        case Ok(mem) => Next(true, c5.(mem := mem))
  {
    GetAddressAt(c);
    FetchByteAt(c.(pc := c.pc + 2));
    GetAddressAt(c.(pc := c.pc + 3));
  }

  /** LOAD with a known operand type: the destination then holds the
    * operand's value at the operand's width, the mapping table is kept, and
    * the counter stays on the last operand byte; a destination outside
    * memory raises range_error. */
  lemma LoadMovesValue(c: Cpu, o: Operands, c1: Cpu, t: OperandType, x: nat)
    requires c.Valid() && DecodeOperands(c) == Next(o, c1) && TypeOf(o.optype) == Some(t)
    requires c1.Read(o.operand, WidthOf(t)) == Next(x, c1)
    ensures var r := Load(c);
      (r.Next? <==> o.address + Size(WidthOf(t)) <= MEMORY_SIZE)
      && (r.Stop? ==> r.fault == RangeError && r.state == c1)
      && (r.Next? ==>
            r.value && r.state == c1.(mem := r.state.mem)
            && r.state.mem.Load(o.address, WidthOf(t)) == Ok(x)
            && r.state.mem.maps == c.mem.maps)
  {
    var w := WidthOf(t);
    if o.address + Size(w) <= MEMORY_SIZE {
      StoreThenLoad(c1.mem, o.address, w, x);
    }
  }

  /** NOT type dest (4 bytes) on an integer type: the destination becomes
    * its one's complement in its own width (the old and the new value add
    * up to the largest value of the width), and the counter stays on the
    * last byte. A DEC operand or type bits no type has report
    * UNSUPPORTED_OPERAND and change nothing else. */
  lemma NotComplements(c: Cpu)
    requires c.Valid() && c.pc + 4 <= MEMORY_SIZE
    ensures var t, a := TypeOf(c.mem.bytes[c.pc + 1]), Word(c.mem, c.pc + 2);
      var c3, r := c.(pc := c.pc + 3), Not(c);
      (t.None? || t == Some(Dec) ==> r == Next(false, c3.Report(ERROR_UNSUPPORTED_OPERAND)))
      && (t.Some? && t.value != Dec && a + Size(WidthOf(t.value)) <= MEMORY_SIZE ==>
            var w := WidthOf(t.value);
            var x := c.mem.Load(a, w).value;
            r.Next? && r.value && r.state == c3.(mem := r.state.mem)
            && r.state.mem.maps == c.mem.maps
            && r.state.mem.Load(a, w).Ok?
            && r.state.mem.Load(a, w).value + x == Limit(w) - 1)
  {
    NotDecodes(c);
    var t, a := TypeOf(c.mem.bytes[c.pc + 1]), Word(c.mem, c.pc + 2);
    var c3 := c.(pc := c.pc + 3);
    if t.Some? && t.value != Dec && a + Size(WidthOf(t.value)) <= MEMORY_SIZE {
      var w := WidthOf(t.value);
      var x := c.mem.Load(a, w).value;
      assert c3.Read(a, w) == Next(x, c3);
      var y := Complement(w, x);
      assert Not(c) == c3.Write(a, w, y).Answer(true);
      StoreThenLoad(c.mem, a, w, y);
    }
  }

  /** The operands of NOT: the type byte and the destination address. */
  lemma NotDecodes(c: Cpu)
    requires c.Valid() && c.pc + 4 <= MEMORY_SIZE
    ensures var t, a := TypeOf(c.mem.bytes[c.pc + 1]), Word(c.mem, c.pc + 2);
      var c3 := c.(pc := c.pc + 3);
      Not(c) == match t
        case None => Next(false, c3.Report(ERROR_UNSUPPORTED_OPERAND))
        case Some(t) =>
          if t == Dec then Next(false, c3.Report(ERROR_UNSUPPORTED_OPERAND))
          else
            var w := WidthOf(t);
            match c3.Read(a, w)
            case Stop(f, _) => Stop(f, c3)
            case Next(x, _) => c3.Write(a, w, Complement(w, x)).Answer(true)
  {
    FetchByteAt(c);
    GetAddressAt(c.(pc := c.pc + 1));
  }

  // ---- branches ----------------------------------------------------------------------

  /** COMPARE: the counter becomes the 16-bit value stored at the target for
    * "less" when the first value is below the second (signed for DEC,
    * unsigned otherwise), at the target for "equal" when they are equal, and
    * at the target for "greater" otherwise; nothing else changes. */
  lemma CompareJumpChooses(c: Cpu, o: CompareOperands, c1: Cpu, t: OperandType, x: nat, y: nat)
    requires c.Valid() && DecodeCompare(c) == Next(o, c1) && TypeOf(o.optype) == Some(t)
    requires c1.Read(o.address, WidthOf(t)) == Next(x, c1) && c1.Read(o.operand, WidthOf(t)) == Next(y, c1)
    ensures var below := if t == Dec then DecLess(x, y) else x < y;
      var target := if below then o.smaller else if x == y then o.equal else o.greater;
      var r := CompareJump(c);
      (r.Next? <==> target + 2 <= MEMORY_SIZE)
      && (r.Next? ==> r == Next(true, c1.(pc := Word(c1.mem, target))))
  {
    var below := if t == Dec then DecLess(x, y) else x < y;
    var target := if below then o.smaller else if x == y then o.equal else o.greater;
    if t == Dec && !below && x != y {
      assert Signed32(x) != Signed32(y);
    }
    if target + 2 <= MEMORY_SIZE {
      ReadWordAt(c1, target);
    }
  }

  /** With no wrap-around in the clock or in the conversion to microseconds,
    * the timeout of COMPARETIME has passed exactly when the clock has
    * advanced by `period` milliseconds since the stamp. */
  lemma TimedOutWithoutWrap(now: u32, stamp: u32, period: u32)
    requires stamp <= now && period * 1000 < 0x1_0000_0000
    ensures TimedOut(now, stamp, period) <==> now - stamp >= period * 1000
  {
    assert Sub32(now, stamp) == now - stamp;
    assert (period * 1000) % 0x1_0000_0000 == period * 1000;
  }

  /** Once the clock has wrapped past zero since the stamp, the elapsed time
    * is still measured correctly: uint32_t subtraction counts across the
    * wrap. */
  lemma TimedOutAcrossWrap(now: u32, stamp: u32, period: u32)
    requires now < stamp && period * 1000 < 0x1_0000_0000
    ensures TimedOut(now, stamp, period) <==> now + 0x1_0000_0000 - stamp >= period * 1000
  {
    assert Sub32(now, stamp) == now + 0x1_0000_0000 - stamp;
    assert (period * 1000) % 0x1_0000_0000 == period * 1000;
  }

  /** COMPARETIME stamp timeout jump1 jump2 (11 bytes, the timeout a 32-bit
    * literal): the counter becomes jump1 once the timeout has passed since
    * the stamp, jump2 before; nothing else changes. A stamp outside memory
    * raises range_error with the counter on the last byte. */
  lemma CompareTimeLayout(c: Cpu, now: u32)
    requires c.Valid() && c.pc + 11 <= MEMORY_SIZE
    ensures var a, j1, j2 := Word(c.mem, c.pc + 1), Word(c.mem, c.pc + 7), Word(c.mem, c.pc + 9);
      var r := CompareTime(c, now);
      (r.Next? <==> a + 4 <= MEMORY_SIZE)
      && (r.Stop? ==> r == Stop(RangeError, c.(pc := c.pc + 10)))
      && (r.Next? ==>
            var stamp, period := c.mem.Load(a, W32).value, c.mem.Load(c.pc + 3, W32).value;
            r == Next(true, c.(pc := if TimedOut(now, stamp, period) then j1 else j2)))
  {
    GetAddressAt(c);
    var optype := Or8(TYPE_UINT32, LITERAL);
    assert optype == 1 && IsLiteral(optype) && TypeOf(optype) == Some(UInt32);
    OperandAt(c.(pc := c.pc + 2), optype);
    GetAddressAt(c.(pc := c.pc + 6));
    GetAddressAt(c.(pc := c.pc + 8));
  }

  // ---- the clock ----------------------------------------------------------------------

  /** TIME dest (3 bytes): the clock reading goes to the 32-bit cell at
    * `dest`, which then reads it back; no other byte and no mapping
    * changes, and the counter stays on the last byte. A cell past the end of
    * memory raises range_error with nothing changed. */
  lemma TimeStores(c: Cpu, now: u32)
    requires c.Valid() && c.pc + 3 <= MEMORY_SIZE
    ensures var a, r := Word(c.mem, c.pc + 1), Time(c, now);
      (r.Next? <==> a + 4 <= MEMORY_SIZE)
      && (r.Stop? ==> r == Stop(RangeError, c.(pc := c.pc + 2)))
      && (r.Next? ==>
            r.value && r.state == c.(pc := c.pc + 2, mem := r.state.mem)
            && r.state.mem.Load(a, W32) == Ok(now as nat)
            && r.state.mem.maps == c.mem.maps
            && forall i :: 0 <= i < MEMORY_SIZE && !(a <= i < a + 4) ==> r.state.mem.bytes[i] == c.mem.bytes[i])
  {
    GetAddressAt(c);
    var a := Word(c.mem, c.pc + 1);
    if a + 4 <= MEMORY_SIZE {
      StoreThenLoad(c.mem, a, W32, now as nat);
      StoreFrame(c.mem, a, W32, now as nat);
    }
  }

  /** A step on TIME whose cell lies in memory: the cell reads the clock
    * back, no other byte, no mapping, no flag, the stack and no controller
    * change, the status code keeps its seed, and the counter moves to the
    * next instruction. */
  lemma TimeStep(m: Machine, env: Env)
    requires m.Valid() && !m.cpu.Halted() && m.cpu.pc + 3 <= MEMORY_SIZE && Opcode(m) == OP_TIME
    requires Word(m.cpu.mem, m.cpu.pc + 1) + 4 <= MEMORY_SIZE
    ensures var a := Word(m.cpu.mem, m.cpu.pc + 1);
      var (m1, outcome) := Step(m, env);
      outcome == Ran && m1.stack == m.stack && m1.pids == m.pids
      && m1.cpu.pc == m.cpu.pc + 3 && m1.cpu.flags == m.cpu.flags
      && m1.cpu.status == Seed(m.cpu.pc, OP_TIME)
      && m1.cpu.mem.Load(a, W32) == Ok(env.now as nat) && m1.cpu.mem.maps == m.cpu.mem.maps
      && forall i :: 0 <= i < MEMORY_SIZE && !(a <= i < a + 4) ==> m1.cpu.mem.bytes[i] == m.cpu.mem.bytes[i]
  {
    var s := Seeded(m);
    TimeStores(s.cpu, env.now);
    var e := Time(s.cpu, env.now);
    assert Dispatch(s, OP_TIME, env) == Next(true, s.(cpu := e.state));
    SucceedingStep(m, env, s.(cpu := e.state));
    NoWrap(m.cpu.pc + 2, 1);
  }

  // ---- URL mappings ------------------------------------------------------------------

  /** URLMAPCHECK type dest (4 bytes): the status checkmap reports for the
    * mapping named in the high nibble of the type byte goes to the byte at
    * `dest`, and a finished once-only mapping is removed; a destination
    * outside memory raises range_error. */
  lemma UrlMapCheckStores(c: Cpu)
    requires c.Valid() && c.pc + 4 <= MEMORY_SIZE
    ensures var id, a := HighNibble(c.mem.bytes[c.pc + 1]), Word(c.mem, c.pc + 2);
      var check := c.mem.CheckMap(id, true);
      var r := UrlMapCheck(c);
      check.Ok?
      && (r.Next? <==> a < MEMORY_SIZE)
      && (r.Next? ==>
            r.value && r.state.pc == c.pc + 3
            && r.state.mem.maps == check.value.1.maps
            && r.state.mem.Load(a, W8) == Ok(check.value.0 as nat))
  {
    FetchByteAt(c);
    GetAddressAt(c.(pc := c.pc + 1));
    var a := Word(c.mem, c.pc + 2);
    var (status, after) := c.mem.CheckMap(HighNibble(c.mem.bytes[c.pc + 1]), true).value;
    if a < MEMORY_SIZE {
      StoreThenLoad(after, a, W8, status as nat);
    }
  }

  /** URLMAP type options value port url resource (11 bytes) with the URL
    * and the resource given by address: the mapping named in the high
    * nibble of the type byte is replaced by one with those fields and status
    * 0, so that checkmap reports "no value yet"; memory and the other
    * mappings are kept and the counter stays on the last byte. */
  lemma UrlMapEnters(c: Cpu, deleteAfter: bool)
    requires c.Valid() && c.pc + 11 <= MEMORY_SIZE
    requires And8(c.mem.bytes[c.pc + 2], MAP_OPTION_URL_MASK) != MAP_OPTION_URL_LITERAL
    requires And8(c.mem.bytes[c.pc + 2], MAP_OPTION_RESOURCE_MASK) != MAP_OPTION_RESOURCE_LITERAL
    ensures var optype, options := c.mem.bytes[c.pc + 1], c.mem.bytes[c.pc + 2];
      var id := HighNibble(optype);
      var e := UrlMap(optype, options, Word(c.mem, c.pc + 3), Word(c.mem, c.pc + 7),
                      Word(c.mem, c.pc + 9), Word(c.mem, c.pc + 5), 0);
      var r := VmSemantics.UrlMap(c);
      r == Next(true, c.(pc := c.pc + 10, mem := c.mem.(maps := c.mem.maps[id := e])))
      && r.state.mem.CheckMap(id, deleteAfter) == Ok((0, r.state.mem))
  {
    UrlMapDecodes(c);
    var optype, options := c.mem.bytes[c.pc + 1], c.mem.bytes[c.pc + 2];
    MapThenCheck(c.mem, HighNibble(optype), optype, options, Word(c.mem, c.pc + 3), Word(c.mem, c.pc + 5),
                 Word(c.mem, c.pc + 7), Word(c.mem, c.pc + 9), deleteAfter);
  }

  /** The operands of URLMAP with both strings given by address. */
  lemma UrlMapDecodes(c: Cpu)
    requires c.Valid() && c.pc + 11 <= MEMORY_SIZE
    requires And8(c.mem.bytes[c.pc + 2], MAP_OPTION_URL_MASK) != MAP_OPTION_URL_LITERAL
    requires And8(c.mem.bytes[c.pc + 2], MAP_OPTION_RESOURCE_MASK) != MAP_OPTION_RESOURCE_LITERAL
    ensures DecodeUrlMap(c)
      == Next(MapOperands(c.mem.bytes[c.pc + 1], c.mem.bytes[c.pc + 2], Word(c.mem, c.pc + 3),
                          Word(c.mem, c.pc + 5), Word(c.mem, c.pc + 7), Word(c.mem, c.pc + 9)),
              c.(pc := c.pc + 10))
  {
    FetchByteAt(c);
    FetchByteAt(c.(pc := c.pc + 1));
    GetAddressAt(c.(pc := c.pc + 2));
    GetAddressAt(c.(pc := c.pc + 4));
    assert !IsLiteral(ADDRESS);
    GetAddressAt(c.(pc := c.pc + 6));
    GetAddressAt(c.(pc := c.pc + 8));
  }

  /** URLMAPDELETE type (2 bytes): the mapping named in the high nibble of
    * the type byte is removed, so that checkmap reports "no value yet";
    * every byte and the other mappings are kept, and the counter stays on
    * the type byte. */
  lemma UrlMapDeleteUnmaps(c: Cpu, deleteAfter: bool)
    requires c.Valid() && c.pc + 2 <= MEMORY_SIZE
    ensures var id := HighNibble(c.mem.bytes[c.pc + 1]);
      var r := UrlMapDelete(c);
      r == Next(true, c.(pc := c.pc + 1, mem := c.mem.(maps := c.mem.maps[id := Unmapped])))
      && !Active(r.state.mem.maps[id])
      && r.state.mem.CheckMap(id, deleteAfter) == Ok((0, r.state.mem))
  {
    FetchByteAt(c);
    UnmapThenCheck(c.mem, HighNibble(c.mem.bytes[c.pc + 1]), deleteAfter);
  }

  /** A step on URLMAPDELETE removes that mapping and moves the counter to
    * the next instruction; memory, flags, the stack and the controllers are
    * kept. */
  lemma UrlMapDeleteStep(m: Machine, env: Env)
    requires m.Valid() && !m.cpu.Halted() && m.cpu.pc + 2 <= MEMORY_SIZE && Opcode(m) == OP_URLMAPDELETE
    ensures var id := HighNibble(m.cpu.mem.bytes[m.cpu.pc + 1]);
      Step(m, env)
      == (m.(cpu := m.cpu.(pc := m.cpu.pc + 2, status := Seed(m.cpu.pc, OP_URLMAPDELETE),
                           mem := m.cpu.mem.(maps := m.cpu.mem.maps[id := Unmapped]))), Ran)
  {
    var s := Seeded(m);
    UrlMapDeleteUnmaps(s.cpu, true);
    var e := UrlMapDelete(s.cpu);
    assert Dispatch(s, OP_URLMAPDELETE, env) == Next(true, s.(cpu := e.state));
    SucceedingStep(m, env, s.(cpu := e.state));
    NoWrap(m.cpu.pc + 1, 1);
  }

  // ---- controllers ------------------------------------------------------------------

  /** Setting controller `i` of the bank replaces that one and keeps the
    * others. */
  lemma BankSet(b: Bank, i: nat, p: PidState)
    requires i < PID_COUNT
    ensures b.Set(i, p).Get(i) == p
    ensures forall j :: 0 <= j < PID_COUNT && j != i ==> b.Set(i, p).Get(j) == b.Get(j)
  {
  }

  /** The operands of PIDINIT at `pc` (33 bytes): the type byte at pc+1, the
    * input, output and setpoint addresses at pc+2, pc+4 and pc+6, then the
    * literals kp, ki, kd, sample time, lower and upper limit, four bytes
    * each from pc+8 on, and the direction byte at pc+32, where the counter
    * ends; nothing but the counter moves. */
  lemma PidOperandsLayout(c: Cpu)
    requires c.Valid() && c.pc + 33 <= MEMORY_SIZE
    ensures PidOperandsOf(c.(pc := c.pc + 1))
      == Next(PidOperands(Word(c.mem, c.pc + 2), Word(c.mem, c.pc + 4), Word(c.mem, c.pc + 6),
                          c.pc + 8, c.pc + 12, c.pc + 16, c.pc + 20, c.pc + 24, c.pc + 28, c.pc + 32),
              c.(pc := c.pc + 32))
  {
    GetAddressAt(c.(pc := c.pc + 1));
    GetAddressAt(c.(pc := c.pc + 3));
    GetAddressAt(c.(pc := c.pc + 5));
    PidLiteralsAt(c.(pc := c.pc + 7));
  }

  /** The seven literals of PIDINIT after the setpoint address, which ends
    * at the counter: three DEC gains, a 32-bit sample time, two DEC limits
    * and a one-byte direction, back to back. */
  lemma PidLiteralsAt(c: Cpu)
    requires c.Valid() && c.pc + 26 <= MEMORY_SIZE
    ensures var decType := Or8(LITERAL, TYPE_DEC);
      var kp := GetOperandAddress(c, decType);
      var ki := GetOperandAddress(kp.state, decType);
      var kd := GetOperandAddress(ki.state, decType);
      var st := GetOperandAddress(kd.state, Or8(LITERAL, TYPE_UINT32));
      var lo := GetOperandAddress(st.state, decType);
      var hi := GetOperandAddress(lo.state, decType);
      var dir := GetOperandAddress(hi.state, Or8(LITERAL, TYPE_UINT8));
      kp.value == c.pc + 1 && ki.value == c.pc + 5 && kd.value == c.pc + 9 && st.value == c.pc + 13
      && lo.value == c.pc + 17 && hi.value == c.pc + 21 && dir.value == c.pc + 25
      && dir.state == c.(pc := c.pc + 25)
  {
    PidLiteralTypes();
    var decType := Or8(LITERAL, TYPE_DEC);
    LiteralAt(c, decType);
    LiteralAt(c.(pc := c.pc + 4), decType);
    LiteralAt(c.(pc := c.pc + 8), decType);
    PidLimitsAt(c.(pc := c.pc + 12));
  }

  /** The sample time, the limits and the direction of PIDINIT. */
  lemma PidLimitsAt(c: Cpu)
    requires c.Valid() && c.pc + 14 <= MEMORY_SIZE
    ensures var decType := Or8(LITERAL, TYPE_DEC);
      var st := GetOperandAddress(c, Or8(LITERAL, TYPE_UINT32));
      var lo := GetOperandAddress(st.state, decType);
      var hi := GetOperandAddress(lo.state, decType);
      var dir := GetOperandAddress(hi.state, Or8(LITERAL, TYPE_UINT8));
      st.value == c.pc + 1 && lo.value == c.pc + 5 && hi.value == c.pc + 9 && dir.value == c.pc + 13
      && dir.state == c.(pc := c.pc + 13)
  {
    PidLiteralTypes();
    var decType, u32Type, u8Type := Or8(LITERAL, TYPE_DEC), Or8(LITERAL, TYPE_UINT32), Or8(LITERAL, TYPE_UINT8);
    LiteralAt(c, u32Type);
    LiteralAt(c.(pc := c.pc + 4), decType);
    LiteralAt(c.(pc := c.pc + 8), decType);
    LiteralAt(c.(pc := c.pc + 12), u8Type);
  }

  /** The literal types PIDINIT decodes its arguments with. */
  lemma PidLiteralTypes()
    ensures var decType, u32Type, u8Type := Or8(LITERAL, TYPE_DEC), Or8(LITERAL, TYPE_UINT32), Or8(LITERAL, TYPE_UINT8);
      IsLiteral(decType) && TypeOf(decType) == Some(Dec) && LiteralSize(decType) == 4
      && IsLiteral(u32Type) && TypeOf(u32Type) == Some(UInt32) && LiteralSize(u32Type) == 4
      && IsLiteral(u8Type) && TypeOf(u8Type) == Some(UInt8) && LiteralSize(u8Type) == 1
  {
    assert Or8(LITERAL, TYPE_DEC) == 3 && Or8(LITERAL, TYPE_UINT32) == 1 && Or8(LITERAL, TYPE_UINT8) == 5;
  }

  /** get_operandaddress on a literal of known type inside memory: the
    * literal starts after the counter, which ends on its last byte. */
  lemma LiteralAt(c: Cpu, optype: u8)
    requires c.Valid() && IsLiteral(optype) && TypeOf(optype).Some?
    requires c.pc + 1 + LiteralSize(optype) <= MEMORY_SIZE
    ensures GetOperandAddress(c, optype) == Next(c.pc + 1, c.(pc := c.pc + LiteralSize(optype)))
  {
    NoWrap(c.pc, 1);
    NoWrap(c.pc + 1, LiteralSize(optype) - 1);
  }

  /** The arguments PIDINIT at `pc` hands to init: the three addresses and
    * the values of the literals, each read at its own width. */
  function PidInitArgs(c: Cpu): PidArgs
    requires c.Valid() && c.pc + 33 <= MEMORY_SIZE
  {
    PidArgs(Word(c.mem, c.pc + 2), Word(c.mem, c.pc + 4), Word(c.mem, c.pc + 6),
            c.mem.Load(c.pc + 8, W32).value, c.mem.Load(c.pc + 12, W32).value,
            c.mem.Load(c.pc + 16, W32).value, c.mem.Load(c.pc + 20, W32).value,
            c.mem.Load(c.pc + 24, W32).value, c.mem.Load(c.pc + 28, W32).value,
            c.mem.Load(c.pc + 32, W8).value)
  }

  /** PIDINIT on an available id: controller `id` becomes what init makes of
    * it with the decoded arguments, the answer is init's, and a refused
    * init reports PID_INIT (0x07); the other controllers, memory, the flags
    * and the stack are kept and the counter stays on the direction byte. */
  lemma PidInitStarts(m: Machine, env: Env)
    requires m.Valid() && m.cpu.pc + 33 <= MEMORY_SIZE
    requires HighNibble(m.cpu.mem.bytes[m.cpu.pc + 1]) < PID_COUNT
    ensures var i, a := HighNibble(m.cpu.mem.bytes[m.cpu.pc + 1]) as nat, PidInitArgs(m.cpu);
      var (pid, ok) := m.pids.Get(i).Init(m.cpu.mem, a.input, a.output, a.setpoint, a.kp, a.ki, a.kd,
                                          a.sampleTime, a.direction, a.lower, a.upper, env.now, env.dec);
      var c := m.cpu.(pc := m.cpu.pc + 32);
      PidInit(m, env) == Next(ok, m.(cpu := if ok then c else c.Report(ERROR_PID_INIT), pids := m.pids.Set(i, pid)))
  {
    FetchByteAt(m.cpu);
    PidOperandsLayout(m.cpu);
    var c := m.cpu.(pc := m.cpu.pc + 32);
    var a := PidInitArgs(m.cpu);
    var o := PidOperandsOf(m.cpu.(pc := m.cpu.pc + 1)).value;
    assert ReadPidArgs(c, o) == Next(a, c);
    assert DecodePidInit(m.cpu.(pc := m.cpu.pc + 1)) == Next(a, c);
  }

  /** PIDSTOP and PIDRUN on an available id: setMode of that controller on
    * the current memory and nothing else; a switch that succeeds leaves the
    * controller in automatic mode exactly for PIDRUN, a failing one raises
    * its exception; the other controllers, memory, flags and the stack are
    * kept and the counter stays on the type byte. */
  lemma PidSetModeAt(m: Machine, mode: u8)
    requires m.Valid() && m.cpu.pc + 2 <= MEMORY_SIZE
    requires HighNibble(m.cpu.mem.bytes[m.cpu.pc + 1]) < PID_COUNT
    ensures var i := HighNibble(m.cpu.mem.bytes[m.cpu.pc + 1]) as nat;
      var res := m.pids.Get(i).SetMode(m.cpu.mem, mode);
      var r := PidSetMode(m, mode);
      r.state == m.(cpu := m.cpu.(pc := m.cpu.pc + 1), pids := m.pids.Set(i, res.pid))
      && (r.Next? <==> res.out.Ok?)
      && (r.Next? ==> r.value && r.state.pids.Get(i).inAuto == (mode == PID_AUTOMATIC))
      && (r.Stop? ==> r.fault == res.out.fault)
      && forall j :: 0 <= j < PID_COUNT && j != i ==> r.state.pids.Get(j) == m.pids.Get(j)
  {
    FetchByteAt(m.cpu);
    var i := HighNibble(m.cpu.mem.bytes[m.cpu.pc + 1]) as nat;
    BankSet(m.pids, i, m.pids.Get(i).SetMode(m.cpu.mem, mode).pid);
  }

  /** A step on PIDSTOP or PIDRUN naming an available controller whose
    * setMode succeeds: that controller alone changes, as setMode leaves it,
    * and the counter moves to the next instruction; memory, flags and the
    * stack are kept. */
  lemma PidSetModeStep(m: Machine, env: Env)
    requires m.Valid() && !m.cpu.Halted() && m.cpu.pc + 2 <= MEMORY_SIZE
    requires Opcode(m) == OP_PIDSTOP || Opcode(m) == OP_PIDRUN
    requires HighNibble(m.cpu.mem.bytes[m.cpu.pc + 1]) < PID_COUNT
    ensures var i := HighNibble(m.cpu.mem.bytes[m.cpu.pc + 1]) as nat;
      var mode := if Opcode(m) == OP_PIDRUN then PID_AUTOMATIC else PID_MANUAL;
      var res := m.pids.Get(i).SetMode(m.cpu.mem, mode);
      res.out.Ok? ==>
        Step(m, env) == (m.(cpu := m.cpu.(pc := m.cpu.pc + 2, status := Seed(m.cpu.pc, Opcode(m))),
                            pids := m.pids.Set(i, res.pid)), Ran)
  {
    var s := Seeded(m);
    var op := Opcode(m);
    var mode := if op == OP_PIDRUN then PID_AUTOMATIC else PID_MANUAL;
    PidSetModeAt(s, mode);
    var e := PidSetMode(s, mode);
    PidModeDispatch(s, op, env);
    if e.Next? {
      SucceedingStep(m, env, e.state);
      NoWrap(m.cpu.pc + 1, 1);
    }
  }

  /** executeStep runs PIDSTOP as setMode(PID_MANUAL) and PIDRUN as
    * setMode(PID_AUTOMATIC). */
  lemma PidModeDispatch(m: Machine, op: u8, env: Env)
    requires m.Valid() && (op == OP_PIDSTOP || op == OP_PIDRUN)
    ensures Dispatch(m, op, env) == PidSetMode(m, if op == OP_PIDRUN then PID_AUTOMATIC else PID_MANUAL)
  {
    assert Dispatch(m, op, env) == DispatchIo(m, op, env);
  }

  /** PIDCLEAR on an available id clears that controller only, and the
    * cleared controller computes nothing until it is initialized again. */
  lemma PidClearStopsController(m: Machine, mem: MemState, now: u32, dec: DecArith)
    requires m.Valid() && m.cpu.pc + 2 <= MEMORY_SIZE && mem.Valid()
    requires HighNibble(m.cpu.mem.bytes[m.cpu.pc + 1]) < PID_COUNT
    ensures var i := HighNibble(m.cpu.mem.bytes[m.cpu.pc + 1]) as nat;
      var r := PidClear(m);
      r == Next(true, m.(cpu := m.cpu.(pc := m.cpu.pc + 1), pids := m.pids.Set(i, m.pids.Get(i).Clear())))
      && r.state.pids.Get(i).Compute(mem, now, dec) == PidResult(r.state.pids.Get(i), mem, Ok(false))
  {
    FetchByteAt(m.cpu);
    var i := HighNibble(m.cpu.mem.bytes[m.cpu.pc + 1]) as nat;
    ComputeIdle(m.pids.Get(i).Clear(), mem, now, dec);
  }

  /** A PID instruction naming an id beyond the three controllers reports
    * ID_UNAVAILABLE and fails without touching any controller. */
  lemma PidIdUnavailable(m: Machine, env: Env, mode: u8)
    requires m.Valid() && m.cpu.pc + 2 <= MEMORY_SIZE
    requires HighNibble(m.cpu.mem.bytes[m.cpu.pc + 1]) >= PID_COUNT
    ensures var failed := Next(false, m.(cpu := m.cpu.(pc := m.cpu.pc + 1).Report(ERROR_ID_UNAVAILABLE)));
      PidInit(m, env) == failed && PidClear(m) == failed && PidSetMode(m, mode) == failed
  {
    FetchByteAt(m.cpu);
  }

  // ---- loading a program --------------------------------------------------------------

  /** setProgram with a program that fits: byte `i` of the program is the
    * byte at address `i`, the counter, flags and status code are zero, so
    * that the machine runs and its first opcode is the program's first byte;
    * the stack and the controllers are kept. A longer program raises
    * range_error. */
  lemma LoadProgramPlaces(m: Machine, program: seq<u8>)
    requires m.Valid() && 0 < |program| < 0x1_0000
    ensures |program| > MEMORY_SIZE ==> LoadProgram(m, program).Stop?
    ensures |program| <= MEMORY_SIZE ==>
      var r := LoadProgram(m, program);
      r.Next? && r.state.stack == m.stack && r.state.pids == m.pids
      && r.state.cpu.pc == 0 && !r.state.cpu.Halted() && r.state.cpu.status == 0
      && r.state.cpu.mem.maps == m.cpu.mem.maps
      && Opcode(r.state) == program[0]
      && forall i :: 0 <= i < |program| ==> r.state.cpu.Read(i, W8) == Next(program[i] as nat, r.state.cpu)
  {
    if |program| <= MEMORY_SIZE {
      var c := LoadProgram(m, program).state.cpu;
      assert And8(0, FLAG_HALTED) == 0;
      forall i | 0 <= i < |program|
        ensures c.Read(i, W8) == Next(program[i] as nat, c)
      {
        ReadByteAt(c, i);
      }
    }
  }
}
