# Calculation VM — a Dafny model

This project models the core of the RIOT "Calculation" example. The example is a small bytecode
interpreter for embedded control. It has four parts:

- **Shared memory** (`Memory`): 1024 bytes, with little-endian typed loads and stores of 8, 16 and
  32 bits. It also holds a 16-slot URL-mapping table, through which the CoAP side exchanges values
  with a running program.
- **Return-address stack** (`Stack`): 20 entries of `uint16_t`.
- **Controller bank**: three Arduino-style PID controllers that read and write cells of the
  shared memory.
- **VM** (`CalculationVM`): it fetches one opcode per `executeStep`. It seeds `statuscode` with the
  counter and the opcode, decodes operands that advance the program counter as they are read, runs
  the handler, and halts with the error flag when the handler fails or a `range_error` is thrown.

The model also covers some helpers of the CoAP bridge: hex decoding, the status serialisers and
octet value transfer. It also covers the native GCD benchmark `ggt/main.c`.

Every stateful C++ object becomes a Dafny `class` over arrays and fields: `Memory`, `Stack`,
`PID`, `VM`. Beside each class is a value model (`MemState`, `StackState`, `PidState`,
`Machine`/`Cpu`) with one function per operation. Each class method is proved to leave the object
in exactly the state the function describes. The properties of the source are then proved as
lemmas about those functions.

C++ exceptions become explicit results:
- `range_error` becomes `Err(RangeError)` or `Stop(RangeError, …)`.
- `overflow_error` and `underflow_error` from the stack become `StackOverflow` and `StackUnderflow`.
- Four cases that are undefined in C++ become `Undefined`:
  - integer MOD by zero;
  - shifts by 32 bits or more;
  - a CoAP payload shorter than the type it is stored as;
  - `setMode` on a controller that `init` has not bound to memory.
- Two other undefined cases are not `Undefined` (see "Left out"):
  - an overrunning `Memory::copy` is refused with `RangeError` (see Findings);
  - the `int` overflows of promoted `uint8_t`/`uint16_t` arithmetic wrap to the operand width.

`executeStep` catches only `range_error`. A stack fault therefore escapes the step: the model's
outcome is `Escaped(f)`, and the flags are left untouched.

Modules and files:

| file | module | what it holds |
|---|---|---|
| `base.dfy` | `Base` | integer widths, `Result`, little-endian encoding, bit helpers, the abstract `rational_t` arithmetic |
| `memory.dfy` | `SharedMemory` | `MemState`, class `Memory`, load/store/copy/mapping properties |
| `stack.dfy` | `AddressStack` | `StackState`, class `Stack`, LIFO properties |
| `pid.dfy` | `PidController` | `PidState`, class `PID`, anti-windup and mode properties |
| `vm_spec.dfy` | `VmSemantics` | `Cpu`, `Machine`, decoders, every handler and `Step` as functions |
| `vm.dfy` | `VirtualMachine` | class `VM`, every handler and `ExecuteStep` proved equal to the functions |
| `vm_properties.dfy` | `VmProperties` | `executeStep`, decoding, arithmetic, CALL/RETURN and JUMP properties |
| `vm_handlers.dfy` | `HandlerProperties` | LOAD, MULTILOAD, NOT, COPY, COMPARE, TIME, COMPARETIME, URLMAP*, PID* and `setProgram` properties, with whole steps of TIME, URLMAPDELETE, PIDSTOP and PIDRUN |
| `gcoap.dfy` | `CoapBridge` | hex decoding, status serialisers, octet load/store |
| `ggt.dfy` | `Ggt` | the subtraction GCD loop |

The clock (`xtimer_now()`) is a parameter `now` of the operations that read it. `rational_t` is the
`fixed8_t` type of an external library, so it is kept as its raw 32-bit pattern:
- comparisons use the signed value (`DecLess`);
- `+ - * /` on it are the fields of a `DecArith` record, passed in as a parameter.

Where the code and its own comments disagree, the model follows the code:
- `map_done` is documented as "Sets done flag in URL-Map" (`Memory.cpp:217`), but it assigns
  `VM_MAP_STATUS_DONE` to the status (`Memory.cpp:230`), which clears any error bits.
- `setMode` marks its re-initialisation "we just went from manual to auto" (`PID.cpp:234`), but the
  test `newAuto == !inAuto` (`PID.cpp:233`) holds on every change of mode. Switching to manual
  therefore re-initialises the controller too (`SwitchToManualReinitializes`).
- JUMP's comment says "immer 16bit adresse" ("always a 16-bit address", `CalculationVM.cpp:683`).
  The handler then fetches the target with the one-byte `Memory::load` (`CalculationVM.cpp:685`).
  The model's machine runs the handler as written (`JumpAsWritten`). The 16-bit reading (`Jump`) is
  kept beside it as the corrected half of a finding (see Findings).

`checkmap` treats a slot as inactive when its status equals `0x80`. This is the code's equality
test, not a bit test.

## Model

| member | source | states |
|---|---|---|
| SharedMemory.MemState.Load | RIOT/examples/Calculation/Memory.cpp:92-147 | a successful typed load returns a value that fits the requested width |
| SharedMemory.MemState.Store | RIOT/examples/Calculation/Memory.cpp:36-85 | a successful store keeps the memory well-formed and leaves the mapping table as it was |
| SharedMemory.AccessWithinMemory | RIOT/examples/Calculation/Memory.cpp:355-358 | a typed load and a typed store of width w at a succeed exactly when a + w <= 1024; otherwise they fail |
| SharedMemory.StoreThenLoad | RIOT/examples/Calculation/Memory.cpp:36-147 | a value stored at any in-bounds address is loaded back unchanged at the same width |
| SharedMemory.StoreByte | RIOT/examples/Calculation/Memory.cpp:36-43 | a byte store replaces exactly the byte at its address |
| SharedMemory.StoreFrame | RIOT/examples/Calculation/Memory.cpp:36-85 | a store lays the value out least significant byte first in [a, a+w) and touches no other byte and no mapping |
| SharedMemory.StoreKeepsDisjointLoad | RIOT/examples/Calculation/Memory.cpp:36-147 | a load from a block disjoint from the stored one returns what it returned before |
| SharedMemory.LoadThenStore | RIOT/examples/Calculation/Memory.cpp:36-147 | storing back a value just loaded leaves the memory unchanged |
| SharedMemory.MemState.Copy | RIOT/examples/Calculation/Memory.cpp:155-162 | a successful copy keeps the memory well-formed and the mapping table unchanged |
| SharedMemory.CopyMovesBlock | RIOT/examples/Calculation/Memory.cpp:155-162 | an accepted copy keeps both blocks inside memory, moves len bytes with memmove semantics (destination byte i gets old source byte i) and changes nothing else |
| SharedMemory.CopyAgreesWhereDefined | RIOT/examples/Calculation/Memory.cpp:155-162 | when both blocks lie inside memory, the checked copy accepts exactly the calls the original two-byte guard accepts |
| SharedMemory.CopyGuardAdmitsOverrun | RIOT/examples/Calculation/Memory.cpp:155-162 | the original guard lets a 255-byte copy from address 1022 through, although that block ends past memory |
| SharedMemory.MemState.Map | RIOT/examples/Calculation/Memory.cpp:175-190 | map changes only the mapping table, never a byte |
| SharedMemory.MapThenCheck | RIOT/examples/Calculation/Memory.cpp:175-214 | map with id < 16 writes every field with status 0, and a following checkmap reports 0 and deletes nothing |
| SharedMemory.MemState.CheckMap | RIOT/examples/Calculation/Memory.cpp:198-214 | checkmap changes only the mapping table, never a byte |
| SharedMemory.DoneThenCheck | RIOT/examples/Calculation/Memory.cpp:198-231 | after map_done on an active slot, a deleting checkmap reports exactly DONE and unmaps the slot exactly when its lifetime is ONCE |
| SharedMemory.MemState.MapDone | RIOT/examples/Calculation/Memory.cpp:220-231 | map_done changes only the mapping table |
| SharedMemory.MemState.MapError | RIOT/examples/Calculation/Memory.cpp:238-249 | map_error changes only the mapping table |
| SharedMemory.ErrorThenCheck | RIOT/examples/Calculation/Memory.cpp:238-249 | after map_error with an error code on an active slot, checkmap reports a status above DONE and never deletes the slot |
| SharedMemory.ErrorCodeSurvives | RIOT/examples/Calculation/Memory.cpp:238-249 | OR-ing code or DONE into any status keeps an error bit (above DONE) set when the code has one |
| SharedMemory.MemState.Unmap | RIOT/examples/Calculation/Memory.cpp:255-270 | unmap changes only the mapping table |
| SharedMemory.UnmapThenCheck | RIOT/examples/Calculation/Memory.cpp:255-270 | an unmapped slot is inactive and checkmap on it reports 0 and changes nothing |
| SharedMemory.MapIdChecked | RIOT/examples/Calculation/Memory.cpp:365-368 | map, checkmap, map_done, map_error and unmap all fail with range_error for an id >= 16 |
| SharedMemory.MemState.MapFrom | RIOT/examples/Calculation/Memory.cpp:323-333 | the scan answers the lowest id at or after its start whose value address matches, and 0xff only when none matches |
| SharedMemory.MemState.MapForAddress | RIOT/examples/Calculation/Memory.cpp:323-333 | getMapForAddress answers the lowest id whose value address matches, and 0xff only when none matches |
| SharedMemory.Cleared | RIOT/examples/Calculation/Memory.cpp:338-347 | the cleared memory is well-formed; ClearedReadsZero states what it reads |
| SharedMemory.ClearedReadsZero | RIOT/examples/Calculation/Memory.cpp:338-347 | after clear every load reads 0 and checkmap on every slot reports 0 and changes nothing |
| SharedMemory.Memory.constructor | RIOT/examples/Calculation/Memory.cpp:25-29 | a new memory is the cleared memory |
| SharedMemory.Memory.Load | RIOT/examples/Calculation/Memory.cpp:92-147 | a load on the object succeeds exactly when the value lies in memory, and the value fits the width |
| SharedMemory.Memory.Store | RIOT/examples/Calculation/Memory.cpp:36-85 | the array update in place equals MemState.Store; a refused store changes nothing |
| SharedMemory.Memory.Copy | RIOT/examples/Calculation/Memory.cpp:155-162 | the in-place copy loop equals MemState.Copy; a refused copy changes nothing |
| SharedMemory.Memory.Map | RIOT/examples/Calculation/Memory.cpp:175-190 | the table update equals MemState.Map; a refused id changes nothing |
| SharedMemory.Memory.CheckMap | RIOT/examples/Calculation/Memory.cpp:198-214 | answer and table equal MemState.CheckMap |
| SharedMemory.Memory.MapDone | RIOT/examples/Calculation/Memory.cpp:220-231 | equals MemState.MapDone; a refused id changes nothing |
| SharedMemory.Memory.MapError | RIOT/examples/Calculation/Memory.cpp:238-249 | equals MemState.MapError; a refused id changes nothing |
| SharedMemory.Memory.Unmap | RIOT/examples/Calculation/Memory.cpp:255-270 | equals MemState.Unmap; a refused id changes nothing |
| SharedMemory.Memory.GetMapForAddress | RIOT/examples/Calculation/Memory.cpp:323-333 | the loop returns the lowest matching id, else 0xff (MapFrom from 0) |
| SharedMemory.Memory.Clear | RIOT/examples/Calculation/Memory.cpp:338-347 | the loops zero every byte and unmap every slot |
| AddressStack.StackState.Push | RIOT/examples/Calculation/Stack.cpp:31-38 | a successful push keeps 0 <= pointer <= 20 |
| AddressStack.StackState.Pop | RIOT/examples/Calculation/Stack.cpp:44-50 | a successful pop keeps 0 <= pointer <= 20 |
| AddressStack.StackState.Peek | RIOT/examples/Calculation/Stack.cpp:56-62 | peek succeeds exactly when the stack holds an address, and returns the top one |
| AddressStack.StackState.IsEmpty | RIOT/examples/Calculation/Stack.cpp:86-89 | isEmpty holds exactly when the stack holds no address |
| AddressStack.StackState.IsFull | RIOT/examples/Calculation/Stack.cpp:95-98 | isFull holds exactly when the stack holds 20 addresses |
| AddressStack.PushAppends | RIOT/examples/Calculation/Stack.cpp:31-38 | push fails with overflow exactly when the stack is full, and otherwise appends x on top |
| AddressStack.PopRemovesTop | RIOT/examples/Calculation/Stack.cpp:44-50 | pop fails with underflow exactly when the stack is empty, and otherwise returns the top and removes it |
| AddressStack.PeekIsPopTop | RIOT/examples/Calculation/Stack.cpp:56-62 | peek fails exactly when pop would and otherwise returns the value pop would return |
| AddressStack.PushThenPop | RIOT/examples/Calculation/Stack.cpp:31-50 | pop after a successful push returns the pushed address and restores pointer and contents |
| AddressStack.ClearedStack | RIOT/examples/Calculation/Stack.cpp:103-107 | the cleared stack is empty (every cell zero) |
| AddressStack.Stack.constructor | RIOT/examples/Calculation/Stack.cpp:22-26 | a new stack is empty |
| AddressStack.Stack.Push | RIOT/examples/Calculation/Stack.cpp:31-38 | the array update equals StackState.Push; a refused push changes nothing |
| AddressStack.Stack.Pop | RIOT/examples/Calculation/Stack.cpp:44-50 | answer and new pointer equal StackState.Pop |
| AddressStack.Stack.Peek | RIOT/examples/Calculation/Stack.cpp:56-62 | answers StackState.Peek |
| AddressStack.Stack.Clear | RIOT/examples/Calculation/Stack.cpp:103-107 | the loop leaves the cleared stack |
| PidController.PidState.SetTunings | RIOT/examples/Calculation/PID.cpp:166-182 | setTunings changes only the three gains and keeps the controller well-formed |
| PidController.TuningsSign | RIOT/examples/Calculation/PID.cpp:166-182 | negative gains are refused with nothing changed; otherwise a direct controller holds kp, ki scaled by the sample time and kd divided by it, and a reverse one holds the negations of all three |
| PidController.PidState.SetControllerDirection | RIOT/examples/Calculation/PID.cpp:261-270 | only the gains and the direction change |
| PidController.DirectionChangeNegatesWhenRunning | RIOT/examples/Calculation/PID.cpp:261-270 | the gains are negated exactly when the controller is automatic and the direction changes; otherwise only the direction is recorded |
| PidController.PidState.SetOutputLimits | RIOT/examples/Calculation/PID.cpp:204-224 | only the limits and the integral sum change; a manual controller touches no memory and keeps its sum |
| PidController.LimitsClampOutput | RIOT/examples/Calculation/PID.cpp:204-224 | on an automatic controller with min < max the limits are taken and both the output cell and the integral sum end inside them |
| PidController.PidState.Init | RIOT/examples/Calculation/PID.cpp:63-90 | init keeps the controller well-formed |
| PidController.InitOnce | RIOT/examples/Calculation/PID.cpp:63-90 | init answers false and changes nothing on an initialized controller; otherwise it leaves the controller initialized, manual and bound, with sampleTime at least 100, the limits taken only when lower < upper, and the input's map id |
| PidController.PidState.Clear | RIOT/examples/Calculation/PID.cpp:95-98 | clear keeps the controller well-formed |
| PidController.PidState.Initialize | RIOT/examples/Calculation/PID.cpp:243-255 | initialize touches no memory |
| PidController.PidState.SetMode | RIOT/examples/Calculation/PID.cpp:230-238 | setMode touches no memory; asking for the mode the controller is in changes nothing; a switch that succeeds leaves it automatic exactly for PID_AUTOMATIC |
| PidController.SwitchToAutoIsBumpless | RIOT/examples/Calculation/PID.cpp:230-255 | switching manual to automatic seeds the integral sum with the clamped output and the last input with the input, and changes nothing else |
| PidController.SwitchToManualReinitializes | RIOT/examples/Calculation/PID.cpp:230-255 | switching automatic to manual also re-initialises: the integral sum becomes the clamped output and the last input the input; only the mode, the sum and the last input change, and memory is untouched |
| PidController.PidState.Mode | RIOT/examples/Calculation/PID.cpp:294 | getMode answers PID_AUTOMATIC exactly when the controller is automatic, PID_MANUAL exactly when it is manual |
| PidController.PidState.Compute | RIOT/examples/Calculation/PID.cpp:104-158 | compute keeps controller and memory well-formed; answering false it changes nothing; answering true it has loaded the input and kept it as lastInput, with now as lastTime, and no field but the integral sum otherwise changed |
| PidController.PidState.Sample | RIOT/examples/Calculation/PID.cpp:116-153 | the control law keeps controller and memory well-formed; a sample that succeeds answers true, keeps the loaded input as lastInput and now as lastTime, and changes no other field but the integral sum |
| PidController.ComputeIdle | RIOT/examples/Calculation/PID.cpp:104-113 | compute answers false with nothing changed when not initialized, manual, or the input's mapping reports an error |
| PidController.ComputeWaitsForSamplePeriod | RIOT/examples/Calculation/PID.cpp:114-157 | a ready controller computes nothing exactly when fewer than 1000*sampleTime clock ticks have passed since the last sample |
| PidController.ComputeStaysWithinLimits | RIOT/examples/Calculation/PID.cpp:116-153 | after a control step both the integral sum and the value in the output cell lie in [outMin, outMax], only the four output bytes changed, and the controller remembers the input and the time of the sample |
| PidController.PID.Stamp | RIOT/examples/Calculation/PID.cpp:86-88 | the last sample time, the initialized flag and the map id are set, and no other field changes |
| PidController.PID.Bind | RIOT/examples/Calculation/PID.cpp:68-73 | the three addresses are taken and the controller becomes bound and manual; no other field changes |
| PidController.PID.RecordLimits | RIOT/examples/Calculation/PID.cpp:206-208 | limits with min < max are recorded; otherwise nothing changes |
| PidController.PID.Remember | RIOT/examples/Calculation/PID.cpp:146-148 | lastInput and lastTime take the sample's input and time; no other field changes |
| PidController.PID.SetGains | RIOT/examples/Calculation/PID.cpp:172-180 | the three gains are replaced; no other field changes |
| PidController.PID.constructor | RIOT/examples/Calculation/PID.cpp:28-47 | a new controller is all zero, unbound and unmapped |
| PidController.PID.Init | RIOT/examples/Calculation/PID.cpp:63-90 | field updates and answer equal PidState.Init |
| PidController.PID.Clear | RIOT/examples/Calculation/PID.cpp:95-98 | equals PidState.Clear |
| PidController.PID.Compute | RIOT/examples/Calculation/PID.cpp:104-158 | controller, memory and answer equal PidState.Compute |
| PidController.PID.Sample | RIOT/examples/Calculation/PID.cpp:116-153 | controller, memory and answer equal PidState.Sample |
| PidController.PID.SetTunings | RIOT/examples/Calculation/PID.cpp:166-182 | equals PidState.SetTunings |
| PidController.PID.SetControllerDirection | RIOT/examples/Calculation/PID.cpp:261-270 | equals PidState.SetControllerDirection |
| PidController.PID.SetOutputLimits | RIOT/examples/Calculation/PID.cpp:204-224 | controller, memory and answer equal PidState.SetOutputLimits |
| PidController.PID.SetMode | RIOT/examples/Calculation/PID.cpp:230-238 | equals PidState.SetMode |
| PidController.PID.Initialize | RIOT/examples/Calculation/PID.cpp:243-255 | equals PidState.Initialize |
| VmSemantics.Cpu.Read | RIOT/examples/Calculation/Memory.cpp:92-147 | a read succeeds exactly when the value lies in memory, returns the memory's load and changes nothing |
| VmSemantics.Cpu.Write | RIOT/examples/Calculation/Memory.cpp:36-85 | a write succeeds exactly when the value lies in memory, changes only the memory, as MemState.Store does, and nothing on failure |
| VmSemantics.FetchByte | RIOT/examples/Calculation/CalculationVM.cpp:993-1004 | get_optype/get_number advance the counter by one (wrapping at 16 bits) and return the byte there, failing past memory |
| VmSemantics.GetAddress | RIOT/examples/Calculation/CalculationVM.cpp:1009-1014 | get_address reads the little-endian word after the counter and advances it by two |
| VmSemantics.GetOperandAddress | RIOT/examples/Calculation/CalculationVM.cpp:1019-1051 | a literal operand's address is pc+1 and the counter moves by the type's width; otherwise the operand is a 16-bit address |
| VmSemantics.IntArith | RIOT/examples/Calculation/CalculationVM.cpp:217-405 | integer results fit the width; division fails exactly for a zero divisor; MOD by zero is undefined |
| VmSemantics.DecArithmetic | RIOT/examples/Calculation/CalculationVM.cpp:217-372 | rational results fit 32 bits; division fails exactly for a zero divisor |
| VmSemantics.BitArith | RIOT/examples/Calculation/CalculationVM.cpp:410-570 | bitwise results fit the width; a shift by 32 or more is undefined |
| VmSemantics.Compare | RIOT/examples/Calculation/CalculationVM.cpp:692-779 | the tri-state comparison is unsigned for integers and signed for rationals |
| VmSemantics.TargetType | RIOT/examples/Calculation/CalculationVM.cpp:692-779 | COMPARE's jump targets are always decoded as literals |
| VmSemantics.ScanNul | RIOT/examples/Calculation/CalculationVM.cpp:843-858 | the scan changes only the counter and, when it succeeds, leaves it on a NUL byte inside memory |
| VmSemantics.Step | RIOT/examples/Calculation/CalculationVM.cpp:59-113 | a step is idle, and changes nothing, exactly when the VM is halted; the machine stays well-formed (SucceedingStep and FailingStep state the running cases) |
| VmSemantics.Conclude | RIOT/examples/Calculation/CalculationVM.cpp:103-113 | the step ran exactly when the handler finished or threw range_error, is undefined exactly for an undefined result, and stack, controllers and memory are those the handler left |
| VmSemantics.Dispatch | RIOT/examples/Calculation/CalculationVM.cpp:70-104 | the handler of each opcode changes the stack only for CALL, RETURN and RESET, and the controllers only for PIDINIT, PIDCLEAR, PIDSTOP, PIDRUN and RESET |
| VmSemantics.DispatchCalc | RIOT/examples/Calculation/CalculationVM.cpp:72-82 | the arithmetic, bitwise, NOT and HALT handlers leave stack and controllers alone (BinaryComputes states their effect) |
| VmSemantics.DispatchFlow | RIOT/examples/Calculation/CalculationVM.cpp:83-91 | LOAD, MULTILOAD, PUSH, POP, COPY, JUMP and COMPARE leave the stack alone; no flow handler touches a controller |
| VmSemantics.DispatchIo | RIOT/examples/Calculation/CalculationVM.cpp:92-102 | only RESET touches the stack; only the PID instructions and RESET touch the controllers |
| VmSemantics.DecodeOperands | RIOT/examples/Calculation/CalculationVM.cpp:219-221 | decoding the type byte and the two addresses moves only the counter (DecodeOperandsLayout states where they are) |
| VmSemantics.Binary | RIOT/examples/Calculation/CalculationVM.cpp:217-570 | a two-operand handler keeps the mapping table, and changes the flags only by setting DIVIDEZERO (BinaryComputes states the value written) |
| VmSemantics.Not | RIOT/examples/Calculation/CalculationVM.cpp:464-486 | NOT keeps the mapping table and the flags (NotComplements states the value written) |
| VmSemantics.Load | RIOT/examples/Calculation/CalculationVM.cpp:575-600 | LOAD keeps the mapping table and the flags (LoadMovesValue states the value written) |
| VmSemantics.MultiLoad | RIOT/examples/Calculation/CalculationVM.cpp:605-647 | MULTILOAD keeps the mapping table and the flags (MultiLoadFrame states which bytes it can write) |
| VmSemantics.LoadEach | RIOT/examples/Calculation/CalculationVM.cpp:614-641 | the remaining passes of the MULTILOAD loop keep the mapping table and the flags (LoadEachFrame states which bytes they can write) |
| VmSemantics.Copy | RIOT/examples/Calculation/CalculationVM.cpp:668-676 | COPY keeps the mapping table and the flags (CopyInstruction states the block moved) |
| VmSemantics.Jump | RIOT/examples/Calculation/CalculationVM.cpp:681-687 | JUMP as its comment describes it changes no memory and no flag (JumpLiteral states the target) |
| VmSemantics.JumpAsWritten | RIOT/examples/Calculation/CalculationVM.cpp:681-687 | JUMP as written changes no memory and no flag, and can only land on an address below 0x100 |
| VmSemantics.DecodeCompare | RIOT/examples/Calculation/CalculationVM.cpp:692-779 | decoding COMPARE moves only the counter |
| VmSemantics.CompareJump | RIOT/examples/Calculation/CalculationVM.cpp:692-779 | COMPARE changes no memory and no flag (CompareJumpChooses states the target) |
| VmSemantics.Time | RIOT/examples/Calculation/CalculationVM.cpp:805-810 | TIME keeps the mapping table and the flags (TimeStores states the value written) |
| VmSemantics.CompareTime | RIOT/examples/Calculation/CalculationVM.cpp:815-830 | COMPARETIME changes no memory and no flag (CompareTimeLayout states the target) |
| VmSemantics.StringOperand | RIOT/examples/Calculation/CalculationVM.cpp:843-862 | a URL or resource operand moves only the counter |
| VmSemantics.DecodeUrlMap | RIOT/examples/Calculation/CalculationVM.cpp:835-866 | decoding URLMAP moves only the counter |
| VmSemantics.UrlMap | RIOT/examples/Calculation/CalculationVM.cpp:835-866 | URLMAP changes no byte of memory and no flag (UrlMapEnters states the entry) |
| VmSemantics.UrlMapCheck | RIOT/examples/Calculation/CalculationVM.cpp:871-877 | URLMAPCHECK changes no flag (UrlMapCheckStores states the value written) |
| VmSemantics.UrlMapDelete | RIOT/examples/Calculation/CalculationVM.cpp:882-887 | URLMAPDELETE changes no byte of memory and no flag (UrlMapDeleteUnmaps states the slot emptied) |
| VmSemantics.Halt | RIOT/examples/Calculation/CalculationVM.cpp:969-973 | HALT sets the halted flag and changes nothing but the flags |
| VmSemantics.Call | RIOT/examples/Calculation/CalculationVM.cpp:784-790 | CALL changes no memory, no flag and no controller (CallThenReturn states the stack and the counter) |
| VmSemantics.Return | RIOT/examples/Calculation/CalculationVM.cpp:795-800 | RETURN changes no memory, no flag and no controller |
| VmSemantics.DecodePidInit | RIOT/examples/Calculation/CalculationVM.cpp:892-919 | decoding PIDINIT moves only the counter |
| VmSemantics.PidOperandsOf | RIOT/examples/Calculation/CalculationVM.cpp:900-909 | decoding the operands of PIDINIT moves only the counter (PidOperandsLayout states where they are) |
| VmSemantics.PidInit | RIOT/examples/Calculation/CalculationVM.cpp:892-919 | PIDINIT changes no memory, no flag and no stack entry (PidInitStarts states the controller set up) |
| VmSemantics.PidClear | RIOT/examples/Calculation/CalculationVM.cpp:924-934 | PIDCLEAR changes no memory, no flag and no stack entry (PidClearStopsController states the controller cleared) |
| VmSemantics.PidSetMode | RIOT/examples/Calculation/CalculationVM.cpp:939-964 | PIDSTOP and PIDRUN change no memory, no flag and no stack entry (PidSetModeAt states the mode set) |
| VmSemantics.Reset | RIOT/examples/Calculation/CalculationVM.cpp:978-988 | RESET leaves a well-formed machine (ResetStep states what it clears) |
| VmSemantics.ClearCpu | RIOT/examples/Calculation/CalculationVM.cpp:205-212 | clear zeroes counter, flags and status and keeps the memory |
| VmSemantics.LoadProgram | RIOT/examples/Calculation/CalculationVM.cpp:45-54 | setProgram succeeds exactly when the program fits in memory, puts byte i of the program at address i, and keeps the stack, the controllers and the mapping table |
| VmProperties.FetchOpcode | RIOT/examples/Calculation/CalculationVM.cpp:67 | the opcode fetch reads the byte under the counter |
| VmProperties.FailingStep | RIOT/examples/Calculation/CalculationVM.cpp:71-113 | a handler answering false on a counting opcode moves the counter past it and sets ERROR/HALTED |
| VmProperties.SucceedingStep | RIOT/examples/Calculation/CalculationVM.cpp:71-113 | a handler answering true on a counting opcode leaves the machine it produced with the counter moved past the opcode, and the step ran |
| VmProperties.HaltedStepIsIdle | RIOT/examples/Calculation/CalculationVM.cpp:62-65 | a step on a halted VM changes nothing |
| VmProperties.FetchFaultStep | RIOT/examples/Calculation/CalculationVM.cpp:66-113 | a counter past memory makes the fetch throw range_error: status gets 0x05, the VM halts with error, nothing else changes |
| VmProperties.HaltHalts | RIOT/examples/Calculation/CalculationVM.cpp:969-973 | HALT's handler sets the halted flag |
| VmProperties.HaltWithErrorHalts | RIOT/examples/Calculation/CalculationVM.cpp:110-113 | setting ERROR/HALTED halts the VM |
| VmProperties.UnknownOpcodeStep | RIOT/examples/Calculation/CalculationVM.cpp:103-113 | an unknown opcode ORs 0x04 into the seeded status and halts with error, the counter and memory unchanged |
| VmProperties.HaltStep | RIOT/examples/Calculation/CalculationVM.cpp:969-973 | HALT leaves the counter on the HALT byte, sets only HALTED, and the next step is idle |
| VmProperties.ResetStep | RIOT/examples/Calculation/CalculationVM.cpp:978-988 | RESET clears memory, stack and every controller, keeps the counter, ORs in 0x01 and halts with error |
| VmProperties.NoWrap | RIOT/examples/Calculation/CalculationVM.cpp:993-1051 | a 16-bit counter increment that does not overflow is plain addition |
| VmProperties.FetchByteAt | RIOT/examples/Calculation/CalculationVM.cpp:993-1004 | inside memory, get_optype returns the next byte and advances by one |
| VmProperties.GetAddressAt | RIOT/examples/Calculation/CalculationVM.cpp:1009-1014 | inside memory, get_address returns the little-endian word at pc+1 and advances by two |
| VmProperties.OperandAt | RIOT/examples/Calculation/CalculationVM.cpp:1019-1051 | a literal operand is at pc+1 and advances by its width; an address operand is the word at pc+1 and advances by two |
| VmProperties.DecodeOperandsLayout | RIOT/examples/Calculation/CalculationVM.cpp:219-221 | an instruction's optype, destination address and operand sit at fixed offsets, and the counter ends on the last operand byte |
| VmProperties.DecodeKeepsStatus | RIOT/examples/Calculation/CalculationVM.cpp:1019-1051 | decoding a supported type reports nothing |
| VmProperties.BinaryComputes | RIOT/examples/Calculation/CalculationVM.cpp:217-570 | a two-operand instruction on a supported type with its operands in memory: a computed value is written at the destination exactly when that cell lies in memory, after which the cell reads the value and no other byte or mapping changed; division by zero changes no memory, sets DIVIDEZERO and reports 0x02; an undefined result stops the machine as Undefined |
| VmProperties.Sum32 | RIOT/examples/Calculation/CalculationVM.cpp:217-245 | 32-bit ADD wraps modulo 2^32 |
| VmProperties.AddLiteral | RIOT/examples/Calculation/CalculationVM.cpp:217-245 | ADD UINT32/LITERAL stores the wrapped sum at the destination and ends on byte 7 |
| VmProperties.AddLiteralStep | RIOT/examples/Calculation/CalculationVM.cpp:59-113 | a full step of ADD UINT32/LITERAL ends at pc+8 with the sum stored and flags unchanged |
| VmProperties.DivideByZero | RIOT/examples/Calculation/CalculationVM.cpp:308-372 | DIV with a zero divisor sets DIVIDEZERO, reports 0x02, fails and leaves the destination unwritten |
| VmProperties.DivideByZeroStep | RIOT/examples/Calculation/CalculationVM.cpp:75 | the step of a DIV by zero still advances the counter past the instruction and halts with error, memory unchanged |
| VmProperties.UnsupportedBitwiseStep | RIOT/examples/Calculation/CalculationVM.cpp:410-570 | AND/OR/XOR/LSHIFT/RSHIFT on a rational or unknown type report 0x03 and halt with error, memory unchanged |
| VmProperties.PushPopFail | RIOT/examples/Calculation/CalculationVM.cpp:652-663 | PUSH and POP always fail: the step moves past the opcode and halts with error, memory and stack untouched |
| VmProperties.CallThenReturn | RIOT/examples/Calculation/CalculationVM.cpp:784-800 | CALL pushes the address after its three bytes and jumps; the matching RETURN comes back there and restores the stack |
| VmProperties.CallOverflowEscapes | RIOT/examples/Calculation/CalculationVM.cpp:784-790 | CALL on a full stack throws overflow_error, which escapes executeStep without setting any flag |
| VmProperties.ReturnUnderflowEscapes | RIOT/examples/Calculation/CalculationVM.cpp:795-800 | RETURN on an empty stack throws underflow_error, which escapes executeStep with only the status seeded |
| VmProperties.ReadWordAt | RIOT/examples/Calculation/Memory.cpp:106-115 | a 16-bit read inside memory is the little-endian word there |
| VmProperties.ReadByteAt | RIOT/examples/Calculation/Memory.cpp:92-99 | an 8-bit read inside memory is the byte there |
| VmProperties.JumpTargetIsOneByte | RIOT/examples/Calculation/CalculationVM.cpp:681-687 | as written, JUMP can only land on addresses 0..255 |
| VmProperties.JumpLiteral | RIOT/examples/Calculation/CalculationVM.cpp:681-687 | JUMP with a literal target lands on the 16-bit literal; as written it lands on its low byte |
| VmProperties.JumpAsWrittenDropsHighByte | RIOT/examples/Calculation/CalculationVM.cpp:681-687 | JUMP LITERAL 0x0100 lands on 0x100 but, as written, on 0 |
| HandlerProperties.CopyDecodes | RIOT/examples/Calculation/CalculationVM.cpp:668-676 | COPY reads src, len and dest at fixed offsets and runs the memory's copy with the counter on its last byte |
| HandlerProperties.CopyInstruction | RIOT/examples/Calculation/CalculationVM.cpp:668-676 | COPY succeeds exactly when both blocks lie in memory and the two-byte guard passes; it then moves the block as memmove does and changes nothing else; a refused COPY raises range_error with memory unchanged |
| HandlerProperties.LoadMovesValue | RIOT/examples/Calculation/CalculationVM.cpp:575-600 | LOAD succeeds exactly when the destination lies in memory and then stores the operand's value there |
| HandlerProperties.NotDecodes | RIOT/examples/Calculation/CalculationVM.cpp:464-486 | NOT reads optype and address, refuses rational and unknown types with 0x03, and otherwise writes the complement |
| HandlerProperties.NotComplements | RIOT/examples/Calculation/CalculationVM.cpp:464-486 | after NOT the cell holds the bitwise complement: old + new == 2^w - 1 |
| HandlerProperties.CompareJumpChooses | RIOT/examples/Calculation/CalculationVM.cpp:692-779 | COMPARE jumps to the less, equal or greater target according to the comparison of the two values |
| HandlerProperties.TimedOutWithoutWrap | RIOT/examples/Calculation/CalculationVM.cpp:815-830 | without clock wrap the timeout test is now - stamp >= timeout*1000 |
| HandlerProperties.TimedOutAcrossWrap | RIOT/examples/Calculation/CalculationVM.cpp:815-830 | across a clock wrap the uint32 difference still measures the elapsed time |
| HandlerProperties.CompareTimeLayout | RIOT/examples/Calculation/CalculationVM.cpp:815-830 | COMPARETIME reads a stored stamp and a literal timeout and jumps to its first literal target on timeout, else to the second |
| HandlerProperties.UrlMapCheckStores | RIOT/examples/Calculation/CalculationVM.cpp:871-877 | URLMAPCHECK stores checkmap's answer (deleting a done ONCE slot) at the given address |
| HandlerProperties.UrlMapDecodes | RIOT/examples/Calculation/CalculationVM.cpp:835-866 | URLMAP with address operands reads its six fields at fixed offsets |
| HandlerProperties.UrlMapEnters | RIOT/examples/Calculation/CalculationVM.cpp:835-866 | URLMAP with address operands enters the mapping at id optype>>4, and checkmap on it then reports 0 |
| HandlerProperties.PidClearStopsController | RIOT/examples/Calculation/CalculationVM.cpp:924-934 | PIDCLEAR clears the addressed controller, after which compute does nothing |
| HandlerProperties.PidIdUnavailable | RIOT/examples/Calculation/CalculationVM.cpp:892-964 | PIDINIT, PIDCLEAR, PIDSTOP and PIDRUN with an id >= 3 report ID_UNAVAILABLE and fail |
| HandlerProperties.LoadProgramPlaces | RIOT/examples/Calculation/CalculationVM.cpp:45-54 | setProgram fails for programs longer than memory; otherwise byte i of the program is at address i, the counter is 0, the VM runs, and stack, controllers and mappings are kept |
| HandlerProperties.LoadEachFrame | RIOT/examples/Calculation/CalculationVM.cpp:614-641 | the remaining passes of the MULTILOAD loop write no byte outside the cells of those passes |
| HandlerProperties.MultiLoadFrame | RIOT/examples/Calculation/CalculationVM.cpp:605-647 | MULTILOAD on an unknown type reports 0x03 and writes nothing; otherwise it keeps the table and the flags and writes no byte outside its count cells from the destination on |
| HandlerProperties.TimeStores | RIOT/examples/Calculation/CalculationVM.cpp:805-810 | TIME succeeds exactly when its 32-bit cell lies in memory; then the cell reads now and nothing else in memory changes; otherwise it throws range_error with the counter on its last byte |
| HandlerProperties.TimeStep | RIOT/examples/Calculation/CalculationVM.cpp:805-810 | a full step of TIME ends at pc+3 with the clock stored, flags, stack and controllers unchanged, and the step ran |
| HandlerProperties.UrlMapDeleteUnmaps | RIOT/examples/Calculation/CalculationVM.cpp:882-887 | URLMAPDELETE empties the slot of its id, after which the slot is inactive and checkmap on it reports 0 |
| HandlerProperties.UrlMapDeleteStep | RIOT/examples/Calculation/CalculationVM.cpp:882-887 | a full step of URLMAPDELETE ends at pc+2 with only that slot emptied and the step ran |
| HandlerProperties.PidOperandsLayout | RIOT/examples/Calculation/CalculationVM.cpp:900-909 | PIDINIT's three addresses and seven literals sit at fixed offsets, and the counter ends on byte 32 |
| HandlerProperties.PidInitStarts | RIOT/examples/Calculation/CalculationVM.cpp:892-919 | PIDINIT with an available id runs init with the decoded arguments on that controller, replacing only it, and reports 0x07 when init refuses |
| HandlerProperties.PidSetModeAt | RIOT/examples/Calculation/CalculationVM.cpp:939-964 | PIDSTOP/PIDRUN replace only the addressed controller by setMode's result; they succeed exactly when setMode does, after which the controller is automatic exactly for PIDRUN |
| HandlerProperties.PidSetModeStep | RIOT/examples/Calculation/CalculationVM.cpp:939-964 | a full step of a successful PIDSTOP or PIDRUN ends at pc+2 with only the addressed controller changed, and the step ran |
| VirtualMachine.VM.constructor | RIOT/examples/Calculation/CalculationVM.cpp:28-38 | a new VM has zero flags, counter and status and an empty stack |
| VirtualMachine.VM.GetByte | RIOT/examples/Calculation/CalculationVM.cpp:993-1004 | the register updates equal FetchByte |
| VirtualMachine.VM.GetAddress | RIOT/examples/Calculation/CalculationVM.cpp:1009-1014 | equals GetAddress |
| VirtualMachine.VM.GetOperandAddress | RIOT/examples/Calculation/CalculationVM.cpp:1019-1051 | equals GetOperandAddress |
| VirtualMachine.VM.DecodeOperands | RIOT/examples/Calculation/CalculationVM.cpp:219-221 | equals DecodeOperands |
| VirtualMachine.VM.HandleBinary | RIOT/examples/Calculation/CalculationVM.cpp:217-570 | memory and registers afterwards equal Binary |
| VirtualMachine.VM.HandleNot | RIOT/examples/Calculation/CalculationVM.cpp:464-486 | equals Not |
| VirtualMachine.VM.HandleLoad | RIOT/examples/Calculation/CalculationVM.cpp:575-600 | equals Load |
| VirtualMachine.VM.HandleMultiLoad | RIOT/examples/Calculation/CalculationVM.cpp:605-647 | the loop, re-decoding its operand on each pass, equals MultiLoad |
| VirtualMachine.VM.HandleCopy | RIOT/examples/Calculation/CalculationVM.cpp:668-676 | equals Copy |
| VirtualMachine.VM.HandleJump | RIOT/examples/Calculation/CalculationVM.cpp:681-687 | equals JumpAsWritten: the target is the one byte at the operand address |
| VirtualMachine.VM.DecodeCompare | RIOT/examples/Calculation/CalculationVM.cpp:692-779 | equals DecodeCompare |
| VirtualMachine.VM.HandleCompare | RIOT/examples/Calculation/CalculationVM.cpp:692-779 | equals CompareJump |
| VirtualMachine.VM.HandleTime | RIOT/examples/Calculation/CalculationVM.cpp:805-810 | equals Time |
| VirtualMachine.VM.HandleCompareTime | RIOT/examples/Calculation/CalculationVM.cpp:815-830 | equals CompareTime |
| VirtualMachine.VM.ScanNul | RIOT/examples/Calculation/CalculationVM.cpp:843-858 | the scanning loop equals ScanNul |
| VirtualMachine.VM.StringOperand | RIOT/examples/Calculation/CalculationVM.cpp:843-862 | equals StringOperand |
| VirtualMachine.VM.DecodeUrlMap | RIOT/examples/Calculation/CalculationVM.cpp:835-866 | equals DecodeUrlMap |
| VirtualMachine.VM.HandleUrlMap | RIOT/examples/Calculation/CalculationVM.cpp:835-866 | equals UrlMap |
| VirtualMachine.VM.HandleUrlMapCheck | RIOT/examples/Calculation/CalculationVM.cpp:871-877 | equals UrlMapCheck |
| VirtualMachine.VM.HandleUrlMapDelete | RIOT/examples/Calculation/CalculationVM.cpp:882-887 | equals UrlMapDelete |
| VirtualMachine.VM.HandleHalt | RIOT/examples/Calculation/CalculationVM.cpp:969-973 | HALT answers true and sets the halted flag |
| VirtualMachine.VM.HandleCall | RIOT/examples/Calculation/CalculationVM.cpp:784-790 | registers and stack equal Call |
| VirtualMachine.VM.HandleReturn | RIOT/examples/Calculation/CalculationVM.cpp:795-800 | equals Return |
| VirtualMachine.VM.PidId | RIOT/examples/Calculation/CalculationVM.cpp:892-964 | equals PidId |
| VirtualMachine.VM.DecodePidInit | RIOT/examples/Calculation/CalculationVM.cpp:892-919 | equals DecodePidInit |
| VirtualMachine.VM.HandlePidInit | RIOT/examples/Calculation/CalculationVM.cpp:892-919 | machine and controllers equal PidInit |
| VirtualMachine.VM.HandlePidClear | RIOT/examples/Calculation/CalculationVM.cpp:924-934 | equals PidClear |
| VirtualMachine.VM.HandlePidSetMode | RIOT/examples/Calculation/CalculationVM.cpp:939-964 | PIDSTOP/PIDRUN equal PidSetMode |
| VirtualMachine.VM.HandleReset | RIOT/examples/Calculation/CalculationVM.cpp:978-988 | RESET answers false and leaves Reset of the old machine |
| VirtualMachine.VM.Dispatch | RIOT/examples/Calculation/CalculationVM.cpp:70-104 | the switch equals Dispatch, JUMP included as written |
| VirtualMachine.VM.ExecuteStep | RIOT/examples/Calculation/CalculationVM.cpp:59-113 | machine and outcome equal Step, which runs every handler as written |
| VirtualMachine.VM.Clear | RIOT/examples/Calculation/CalculationVM.cpp:205-212 | clear zeroes counter, flags and status, keeps memory, and keeps the stack |
| VirtualMachine.VM.StoreProgram | RIOT/examples/Calculation/CalculationVM.cpp:45-52 | the loop writes program byte i at address i; past the end of memory it fails with range_error after the first 1024 bytes |
| VirtualMachine.VM.SetProgram | RIOT/examples/Calculation/CalculationVM.cpp:45-54 | equals LoadProgram |
| CoapBridge.HexValue | RIOT/examples/Calculation/gcoap_shared_memory_functions.cpp:407-417 | '0'-'9' map to 0-9, 'A'-'F' and 'a'-'f' to 10-15, every other character to 0xff; the value is a digit iff it is below 16 |
| CoapBridge.HexDigitRoundTrip | RIOT/examples/Calculation/gcoap_shared_memory_functions.cpp:407-417 | decoding the upper-case digit of v gives v back |
| CoapBridge.HexValueRoundTrip | RIOT/examples/Calculation/gcoap_shared_memory_functions.cpp:407-417 | re-encoding a decoded digit gives its upper-case form |
| CoapBridge.JoinNibbles | RIOT/examples/Calculation/gcoap_shared_memory_functions.cpp:397-400 | (hi<<4)/lo truncated to 8 bits is 16*hi+lo for digits, and 0xff when the low digit is invalid |
| CoapBridge.FromHex | RIOT/examples/Calculation/gcoap_shared_memory_functions.cpp:397-400 | two valid digits give 16*v1+v2; an invalid second digit gives 0xff; an invalid first digit gives 0xf0+v2 |
| CoapBridge.ToHex | RIOT/examples/Calculation/gcoap_shared_memory_functions.cpp:392-400 | a byte's two-digit form: two hex digits whose values are v/16 and v%16 (ToHexFromHex makes it FromHex's inverse) |
| CoapBridge.ToHexFromHex | RIOT/examples/Calculation/gcoap_shared_memory_functions.cpp:397-400 | decoding the two-digit hex form of any byte gives the byte back |
| CoapBridge.FromHexToHex | RIOT/examples/Calculation/gcoap_shared_memory_functions.cpp:397-400 | re-encoding a decoded pair of digits gives the pair in upper case |
| CoapBridge.Emitted | RIOT/examples/Calculation/gcoap_shared_memory_functions.cpp:488-537 | a report is cut to the buffer: nothing for an empty buffer, min(buf_len, report length) bytes otherwise |
| CoapBridge.MapsReport | RIOT/examples/Calculation/gcoap_shared_memory_functions.cpp:488-508 | the mapping report is the count 16 followed by each slot's status |
| CoapBridge.PidStatus | RIOT/examples/Calculation/gcoap_shared_memory_functions.cpp:532 | a controller's status byte is 16 times its mode plus 1 when it is initialized |
| CoapBridge.PidStatusNibbles | RIOT/examples/Calculation/gcoap_shared_memory_functions.cpp:516-537 | a controller's status byte holds its mode in the high nibble and initialized in the low one |
| CoapBridge.StatusByte | RIOT/examples/Calculation/gcoap_shared_memory_functions.cpp:532 | the byte computed from the controller object equals PidStatus of its state |
| CoapBridge.PidReport | RIOT/examples/Calculation/gcoap_shared_memory_functions.cpp:516-537 | the controller report is four bytes: the count 3, then the status byte of each controller in bank order |
| CoapBridge.PidReportNibbles | RIOT/examples/Calculation/gcoap_shared_memory_functions.cpp:516-537 | byte i+1 of the report carries controller i's mode in its high nibble and its initialized flag in its low one |
| CoapBridge.StatusMappings | RIOT/examples/Calculation/gcoap_shared_memory_functions.cpp:488-508 | the loop writes the report cut to buf_len, returns how much it wrote and leaves the rest of the buffer alone |
| CoapBridge.StatusPid | RIOT/examples/Calculation/gcoap_shared_memory_functions.cpp:516-537 | the loop writes the controller report cut to buf_len, never past it, and leaves the rest alone |
| CoapBridge.AfterTransfer | RIOT/examples/Calculation/gcoap_shared_memory_functions.cpp:224-227 | after a transfer a ONCE slot is unmapped and every byte kept |
| CoapBridge.ValueOctets | RIOT/examples/Calculation/gcoap_shared_memory_functions.cpp:187-230 | the octets of a mapped value are its little-endian bytes, as many as its type's width |
| CoapBridge.LoadOctet | RIOT/examples/Calculation/gcoap_shared_memory_functions.cpp:187-230 | load_value_octet returns the value's octets and unmaps a ONCE slot; it fails only when the value does not lie in memory |
| CoapBridge.StoreOctet | RIOT/examples/Calculation/gcoap_shared_memory_functions.cpp:274-295 | store_value_octet stores the payload as the mapped type at the value address, keeping the table |
| CoapBridge.StoreText | RIOT/examples/Calculation/gcoap_shared_memory_functions.cpp:239-265 | store_value_text answers -1 with nothing changed for a payload of 15 or more bytes, and 0 otherwise |
| CoapBridge.StoreValue | RIOT/examples/Calculation/gcoap_shared_memory_functions.cpp:305-324 | store_value unmaps a ONCE slot after the store whatever the store answered |
| CoapBridge.StoreThenLoadOctet | RIOT/examples/Calculation/gcoap_shared_memory_functions.cpp:187-295 | octets stored through a mapping are loaded back unchanged |
| CoapBridge.LoadValueOctet | RIOT/examples/Calculation/gcoap_shared_memory_functions.cpp:187-230 | the method's answer and memory equal LoadOctet |
| CoapBridge.StoreValueOctet | RIOT/examples/Calculation/gcoap_shared_memory_functions.cpp:274-295 | equals StoreOctet and answers 0 |
| CoapBridge.StoreValueText | RIOT/examples/Calculation/gcoap_shared_memory_functions.cpp:239-265 | equals StoreText |
| CoapBridge.StoreValueThrough | RIOT/examples/Calculation/gcoap_shared_memory_functions.cpp:305-324 | equals StoreValue |
| Ggt.SubtractKeepsDivisors | RIOT/examples/ggt/main.c:24-30 | subtracting the smaller value from the larger keeps the common divisors |
| Ggt.Ggt | RIOT/examples/ggt/main.c:21-30 | a == 0 gives b; otherwise the loop ends with the greatest common divisor of the inputs |
| Ggt.FibonacciCoprime | RIOT/examples/ggt/main.c:17-18 | the built-in operands have no common divisor but 1 |
| Ggt.Demo | RIOT/examples/ggt/main.c:17-34 | the benchmark's answer is 1 |

## Left out

- Threads, message passing and the memory mutex: every operation is one sequential, atomic step.
- CoAP transport, `gcoap_statusVM` (message passing and sleeps), and the C-string helpers (`loadurl`, host and resource extraction). These hand out raw pointers.
- Text formatting and parsing (`snprintf`, `atoi`, `atof`): the text store takes the parser as a parameter, and the text load is not modelled.
- Debug output: the `TESTING` prints and the `debugmode` printout.
- `rational_t` arithmetic is abstract (`DecArith`). The `fmod` of a rational MOD and the floating-point scaling in `setTunings` are therefore not modelled, and `setSampleTime` is left out.
- The clock is the parameter `now`. `init` dates the last sample in milliseconds while `compute` stores microseconds; both are kept as written.
- VmSemantics.IntArith: integer MOD by zero is undefined behaviour in C++, so it gives `Undefined` instead of a value.
- VmSemantics.IntArith: a `uint16_t` MUL is computed in the promoted `int` (`CalculationVM.cpp:290`). Products of 2^31 or more overflow `int`, which is undefined in C++. The model wraps them to 16 bits like every other product.
- VmSemantics.BitArith: shifts by 32 or more are undefined behaviour in C++, so they give `Undefined` instead of a value.
- VmSemantics.BitArith: a `uint8_t` or `uint16_t` left shift is computed in the promoted `int` (`CalculationVM.cpp:528`, `:531`). A result of 2^31 or more overflows `int`, which is undefined in C++. The model wraps it to the operand width.
- PidController.PidState.Initialize: calling `setMode` or `initialize` on a controller without memory dereferences a null pointer in C++, so the model requires a bound controller.
- The controller bank is fixed at three controllers (`Bank`).
- `execution_error` is not kept as VM state: every step writes it before reading it.
- The bit layout of `statuscode` (`(pc<<16)|(op<<8)`) is modelled, but no lemma separates its fields.
- VirtualMachine.VM.HandleMultiLoad: proved equal to `MultiLoad`, with the re-decoding of its operand on each pass. `MultiLoadFrame` states that only the destination block can change; which values the loop leaves in it is not stated.
- HandlerProperties.UrlMapEnters: states URLMAP only for address operands. Literal URL and resource strings are scanned by `ScanNul` and `StringOperand`, but no lemma states the resulting entry.
- CoapBridge.LoadOctet: `load_value_octet` ignores `max_len`, and so does the model; the octets are returned as a sequence, not written into a caller buffer.
- CoapBridge.StoreOctet: a payload shorter than the type's width is read past its end by `store_value_octet`; that case is `Undefined`.
- Exceptions thrown inside the gcoap functions are kept as `Err` results. The caller's catch blocks are not modelled.
- `gcoap_statusMappings` and `gcoap_statusPID` write into a fresh buffer; aliasing with the memory is not modelled.
- The C++ `Memory::copy` on blocks that run past the end of memory reads and writes outside the array. The model refuses such copies instead (see Findings).

## Findings

| source | as written | input that shows it | evidently intended | confidence | as-written member | corrected member |
|---|---|---|---|---|---|---|
| RIOT/examples/Calculation/Memory.cpp:155-162 | `copy` checks src and dest as if each started a two-byte value and never looks at `len` | copy 255 bytes from address 1022 to 0: the guard passes and `memmove` reads 253 bytes past the 1024-byte array | refuse a copy unless both `[src, src+len)` and `[dest, dest+len)` lie in memory | not executed | SharedMemory.CopyGuardAdmitsOverrun | SharedMemory.CopyMovesBlock |
| RIOT/examples/Calculation/CalculationVM.cpp:681-687 | JUMP fetches its target with the one-byte `Memory::load`, although the operand is decoded as a 16-bit address | JUMP LITERAL with bytes 0x00 0x01 (target 0x0100) lands on address 0 | load the 16-bit target, as the handler's own comment says ("always 16-bit address") | not executed | VmProperties.JumpAsWrittenDropsHighByte | VmProperties.JumpLiteral |
