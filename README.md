# LS-8 CPU emulator: the instruction-execution engine

This project models the core of `cpu.py`, an emulator for the LS-8, an
8-bit teaching CPU with 256 RAM cells, 8 registers and a stack pointer in
register 7. The model covers:

- the state `CPU.__init__` builds;
- the fetch/decode/dispatch loop `run`;
- the `alu`;
- the per-opcode handlers of the dispatch table `branchTable`;
- `ram_read`, `raw_write`, and the per-line rule of `load`.

It is written in two layers.

- **`Semantics`** (semantics.dfy) describes the machine as a value.
  - The machine state is `Machine`.
  - Each handler is a function from a state to an `Outcome` (the new state plus an optional fault).
  - `Cycle` is one iteration of `run`'s loop.
  - `Run` is the loop, cut off after a number of iterations (fuel).
- **`Emulator.CPU`** (cpu.dfy) is the object itself.
  - RAM and the register file are arrays updated in place.
  - `pc`, `flag`, `halted`, `subRoutine` and `output` are fields.
  - Each handler method, `Step` and `Run` are proved to leave the object in the state the matching `Semantics` function computes from the state before the call, and to return the same fault.
  - `Load` and `StoreLine` are proved against `Loader.Scan`, the pure line-by-line rule of `load`.
  - `Run` is a `while !halted` loop proved equal to `Semantics.Run`.

The other modules are:

- **`Isa`** (isa.dfy): the opcode constants, the dispatch table, and the operand count carried in an opcode's top two bits.
- **`PyInt`** (pyint.dfy): Python's integer operators on unbounded integers. This covers `&`, `|`, `^` and `~` in two's complement, `<<`, `>>`, and floor `//` and `%`.
- **`Loader`** (loader.dfy): the pure per-line rule of `load`. It covers `#` comments, `str.strip()` and `int(text, 2)`.
- **`Properties`** and **`Examples`** (properties.dfy): what each opcode does in one step, what runs do, and whole programs.
- **`RamStack`** (ramstack.dfy): the stack as the program evidently intends it, with PUSH and CALL storing into RAM. See "## Findings".
- **`ClearEqualJump`** (jne.dfy): JNE as its opcode comment describes it, jumping whenever the E bit is clear. See "## Findings".

The model follows the code, not the comments in it:

- Registers and RAM hold unbounded integers. ADD and MUL are not masked to 8 bits.
- `pc` is advanced past HLT too. After `LDI R0,8; PRN R0; HLT` at address 0, `pc` is 6, not 5.

Python's list indexing is modelled exactly:

- An index `i` into a list of length `n` is valid when `-n <= i < n`. A negative index counts from the end.
- Any other index raises IndexError, which is a fault (`RamIndexError`, `RegIndexError`).
- A fault leaves whatever the handler had already changed. PUSH and CALL decrement the stack pointer before they can fault.
- `run` reads `ram[pc]`, `ram[pc+1]` and `ram[pc+2]` before it looks the opcode up. So an instruction at address 254 or 255 faults, even HLT.
- `sub_routine` is a field that only some handlers reset:
  - after a taken jump, CALL or RET, a following HLT or POP does not advance `pc`;
  - such a POP therefore runs again on the next iteration.
- CMP's `0b000` fallback is modelled; `Semantics.CompareFlag` proves it unreachable for integers.
- Six table entries are declared with the wrong number of parameters: `not_op`, `shl_op`, `shr_op`, `mod_op`, `int_op` and `iret_op`. Dispatching to one raises TypeError, modelled as the `WrongArity` fault with nothing changed.

## Model

| member | source | states |
|---|---|---|
| Emulator.CPU.constructor | cpu.py:70-80 | A new CPU has 256 zero RAM cells, registers 0-6 zero and register 7 = 0xF4, `pc = 0`, `flag = 0`, and HALTED and `sub_routine` false; this is `Semantics.Initial()` |
| Emulator.CPU.RamRead | cpu.py:191-192 | Returns `ram[mar]` with Python's negative indexing; faults with the index exactly when it is outside [-256, 256) |
| Emulator.CPU.RawWrite | cpu.py:194-195 | Writes the register file, not RAM, at index MAR; the new state and fault are those of `Semantics.RawWrite` |
| Emulator.CPU.Load | cpu.py:106-123 | Stores the value of each code line at successive addresses from 0 and leaves the cells after them unchanged; stops with the fault of the first failing line and keeps the cells already stored (`Loader.Scan`) |
| Emulator.CPU.StoreLine | cpu.py:115-120 | One iteration of `load`'s loop: a blank or comment-only line stores nothing; a code line that parses is stored at the next address, which then grows by one; an unparsable line or a 257th value faults with RAM unchanged; the result is that of `Loader.Scan` on one more line |
| Emulator.CPU.Alu | cpu.py:125-169 | The in-place `alu` yields the state and fault of `Semantics.Alu` for every operation name |
| Emulator.CPU.BinaryAlu | cpu.py:128-146 | The ADD/MUL/AND/OR/XOR/SHL/SHR branches of `alu` in place, equal to `Semantics.BinaryAlu` |
| Emulator.CPU.HaltOp | cpu.py:214-215 | Sets HALTED and nothing else (`Semantics.HaltOp`) |
| Emulator.CPU.PopOp | cpu.py:217-219 | In-place POP equals `Semantics.PopOp`, including its faults |
| Emulator.CPU.PushOp | cpu.py:221-226 | In-place PUSH equals `Semantics.PushOp`, including the decrement kept on a fault |
| Emulator.CPU.PrnOp | cpu.py:228-230 | Appends `reg[a]` to the output (`Semantics.PrnOp`) |
| Emulator.CPU.LdiOp | cpu.py:232-234 | Stores the literal operand into `reg[a]` (`Semantics.LdiOp`) |
| Emulator.CPU.AluHandler | cpu.py:236-291 | `add_op` and `mul_op` (236-242), `cmp_op` (259-261) and `and_op`, `or_op` and `xor_op` (281-291) in place equal `Semantics.AluHandler` with their operation |
| Emulator.CPU.CallOp | cpu.py:244-248 | In-place CALL equals `Semantics.CallOp` |
| Emulator.CPU.RetOp | cpu.py:250-253 | In-place RET equals `Semantics.RetOp` |
| Emulator.CPU.JmpOp | cpu.py:255-257 | In-place JMP equals `Semantics.JmpOp` |
| Emulator.CPU.JeqOp | cpu.py:263-268 | In-place JEQ equals `Semantics.JeqOp` |
| Emulator.CPU.JneOp | cpu.py:270-275 | In-place JNE equals `Semantics.JneOp` |
| Emulator.CPU.Dispatch | cpu.py:206-207 | Calling `branchTable[IR](operand_a, operand_b)` on the object yields the state and fault of `Semantics.Dispatch` for every handler |
| Emulator.CPU.Step | cpu.py:200-212 | One loop iteration on the object yields exactly the state and fault of `Semantics.Cycle` |
| Emulator.CPU.Run | cpu.py:197-212 | The `while not HALTED` loop, with fuel, ends in the state and outcome of `Semantics.Run` |
| Semantics.CompareFlag | cpu.py:158-166 | The CMP flag is 0b001 iff equal, 0b010 iff greater and 0b100 iff less, so the 0b000 fallback never happens |
| Semantics.Run | cpu.py:197-212 | A run stops with outcome Halted exactly when HALTED is set, and never changes RAM |
| Semantics.RunOnce | cpu.py:200-212 | One iteration of the loop: a fault ends the run with that state, otherwise the run continues from the new state with one less fuel |
| Isa.OperandCount | cpu.py:202 | `IR >> 6 & 0b11` is the top two bits of the opcode, `(IR / 64) % 4` |
| Isa.BranchTableInverse | cpu.py:81-104 | The dispatch table maps each of its 22 opcodes to its handler and back |
| Isa.UnlistedOpcodes | cpu.py:81-104 | SUB, DIV, LD, ST, INC, DEC, NOP, PRA, JGT, JGE, JLT and JLE have no table entry |
| Isa.TableOperandCounts | cpu.py:6-60 | The operand count encoded in each table opcode: 0 for HLT, RET and IRET, 2 for the ALU operations and LDI, 1 otherwise |
| PyInt.BitwiseBit | cpu.py:132-140 | Bit k of `x & y`, `x \| y` and `x ^ y` is the boolean operation on bit k of x and of y, negative numbers included |
| PyInt.XorUndo | cpu.py:138-140 | `(x ^ y) ^ y == x` |
| PyInt.AndThree | cpu.py:202 | `x & 0b11 == x % 4` |
| PyInt.AndBounded | cpu.py:132-134 | For non-negative operands, `x & y` is between 0 and both operands |
| PyInt.OrCovers | cpu.py:135-137 | For non-negative operands, `x \| y` is at least each operand |
| PyInt.InvertInvolution | cpu.py:147-149 | `~~x == x`, and `~x` has the opposite sign to x |
| PyInt.ShiftRoundTrip | cpu.py:141-146 | `(x << n) >> n == x` |
| PyInt.FloorDivMod | cpu.py:150-156 | `x == (x // y) * y + x % y`, and the remainder has the divisor's sign |
| Properties.TopOfRamFaults | cpu.py:201-204 | At `pc` 254 or 255 the operand fetch faults at index 256 before dispatch, whatever the opcode, with nothing changed |
| Properties.FetchOutsideRamFaults | cpu.py:201 | A `pc` outside RAM faults on the opcode fetch with nothing changed |
| Properties.InvalidInstructionIff | cpu.py:206-210 | "Invalid instruction", carrying the opcode and `pc`, is raised exactly when the opcode has no table entry, and then nothing has changed |
| Properties.SequentialHandlerKeepsPc | cpu.py:214-275 | A handler that succeeds and leaves `sub_routine` clear has not moved `pc` |
| Properties.SequentialStepAdvancesPc | cpu.py:211-212 | After a successful step with `sub_routine` clear, `pc` has grown by the operand count plus one |
| Properties.MisDeclaredHandlersFault | cpu.py:293-310 | NOT, SHL, SHR, MOD, INT and IRET fault on dispatch and change nothing |
| Properties.AluModulo | cpu.py:150-156 | MOD faults on a zero divisor whatever the other register is; otherwise `reg[a]` gets the remainder with the divisor's sign, and nothing else changes |
| Properties.AluShift | cpu.py:141-146 | SHL and SHR multiply or floor-divide by 2^reg[b]; a negative count faults; SHR undoes SHL when the count register differs from the target register |
| Properties.AluComplement | cpu.py:147-149 | NOT stores `-x-1`, and NOT twice restores the register |
| Properties.AluRejectsUnknown | cpu.py:168-169 | Any other operation name raises "Unsupported ALU operation" with nothing changed |
| Properties.HaltStep | cpu.py:211-215 | HLT sets HALTED and changes nothing else; `pc` still advances by 1 unless `sub_routine` was set |
| Properties.RunStopsAfterHalt | cpu.py:200 | After HLT the loop ends whatever fuel is left |
| Properties.PrnStep | cpu.py:228-230 | PRN appends `reg[a]` to the output, clears `sub_routine`, advances `pc` by 2, and faults only on a bad register index |
| Properties.LdiStep | cpu.py:232-234 | LDI writes the literal byte into `reg[a]` only; RAM, the flag and the other registers are unchanged; `pc` advances by 3 |
| Properties.ArithmeticStep | cpu.py:128-140 | ADD, MUL, AND, OR and XOR write the unmasked result into `reg[a]` only; they fault exactly on a bad register index |
| Properties.ArithmeticDispatch | cpu.py:81-104 | ADD, MUL, AND, OR and XOR are in the table with two operands, and their handlers run the ALU on the matching operation |
| Properties.CompareStep | cpu.py:259-261 | CMP writes only the flag, leaving exactly one of 0b001/0b010/0b100 to match `=`, `>` or `<` |
| Properties.BranchStep | cpu.py:255-275 | JMP always jumps; JEQ jumps iff the flag is 0b001; JNE iff it is 0b010 or 0b100; a taken jump sets `pc = reg[a]` and `sub_routine`; one not taken advances `pc` by 2 |
| Properties.BranchFollowsCompare | cpu.py:259-275 | After CMP, JEQ jumps iff the registers are equal and JNE iff they differ |
| Properties.PopStep | cpu.py:217-219 | POP copies `ram[reg[7]]` into `reg[a]`, then increments `reg[7]`; it leaves `sub_routine` as it was |
| Properties.PopRepeatsAfterJump | cpu.py:211-219 | A POP after a taken jump leaves `pc` on itself, so it runs again |
| Properties.RetStep | cpu.py:250-253 | RET sets `pc = ram[reg[7]]`, increments `reg[7]` and sets `sub_routine` |
| Properties.PushStep | cpu.py:221-226 | PUSH decrements `reg[7]`, then writes `reg[a]` into the register at that index; it faults unless that index is in [-8, 8), and the decrement survives the fault |
| Properties.CallStep | cpu.py:244-248 | CALL decrements `reg[7]`, writes `pc + 2` into the register at that index, then jumps to `reg[a]`; it faults unless that index is in [-8, 8) |
| Properties.StackFaultsFromInitialSp | cpu.py:78 | From the stack pointer `__init__` sets, the first CALL, or a PUSH of a valid register, faults on register 0xF3, keeping the decrement (a PUSH of an invalid register faults on that register first) |
| Properties.RunNeverWritesRam | cpu.py:194-195 | No run changes RAM |
| Properties.OutputOnlyGrows | cpu.py:228-230 | One step only ever appends to the output |
| Properties.RunExtendsOutput | cpu.py:200-212 | A run's output begins with the output it started with |
| Properties.RunFuelMonotone | cpu.py:200-212 | A run that halted or faulted gives the same result with more fuel |
| Properties.DispatchKeepsFlag | cpu.py:158-166 | Every handler keeps the flag 0 or exactly one of 0b001, 0b010 and 0b100 |
| Properties.CycleKeepsFlag | cpu.py:200-212 | One loop iteration keeps the flag 0 or exactly one of 0b001, 0b010 and 0b100 |
| Properties.RunKeepsFlag | cpu.py:197-212 | From a fresh CPU's flag 0, the flag is 0 or exactly one of 0b001, 0b010 and 0b100 after any run |
| Examples.Boot | cpu.py:70-80 | A fresh CPU with a program image at address 0 and zeros after it |
| Examples.PrintValue | cpu.py:200-234 | For every byte v and register r, `LDI r,v; PRN r; HLT` prints exactly v, halts with `pc = 6`, and changes no register but r |
| Examples.DivideIsInvalid | cpu.py:206-210 | `LDI R0,10; LDI R1,0; DIV R0,R1` stops with "Invalid instruction" at address 6, with R0 still 10 |
| Loader.StripSpec | cpu.py:115-117 | `strip()` keeps a contiguous part of the line, removes only whitespace around it, and leaves no whitespace at either end |
| Loader.HasHashIff | cpu.py:116 | The recursive test used for the comment check is `'#' in line` |
| Loader.Code | cpu.py:115-117 | The code text of a line has no whitespace at either end (with `Loader.CodeMeetsLoad`: it is `load`'s stripped, comment-free line) |
| Loader.CodeMeetsLoad | cpu.py:115-117 | The code part of a line is `line.split('#')[0].strip()` when the line holds `#`, and `line.replace('\n', '').strip()` otherwise |
| Loader.CommentIgnored | cpu.py:116-117 | A trailing `#` comment never changes what a line loads |
| Loader.ParseBitsRoundTrip | cpu.py:119 | A value written in n binary digits, such as a byte in eight, parses back to itself under `int(text, 2)` |
| Loader.ParsedTextIsLiteral | cpu.py:119 | Text that `int(text, 2)` accepts is non-empty and contains no whitespace and no `#` |
| Loader.ParseBase2 | cpu.py:119 | `int(line, 2)` accepts only non-empty text, and gives a negative value only after a leading `-` |
| Loader.ScanMeetsReference | cpu.py:114-120 | A file loads without fault iff every non-blank code line parses and there are at most 256 of them; the image is then their values in order |
| Loader.ScanPrefix | cpu.py:114-120 | A longer file only appends to the image, and after a fault nothing more is loaded |
| Loader.ScanStep | cpu.py:114-120 | Loading one more line only appends to the image, and a fault already raised is kept |
| RamStack.PushToRam | cpu.py:221-226 | PUSH storing into RAM: decrements the stack pointer, then faults exactly on a bad register or stack index with only the decrement kept; otherwise writes the register's value at the new stack top, clears `sub_routine` and changes nothing else |
| RamStack.CallToRam | cpu.py:244-248 | CALL storing into RAM: decrements the stack pointer; a bad stack index faults with only the decrement kept; otherwise saves `pc + 2` at the new stack top, then faults on a bad register with that write kept, or sets `pc = reg[a]` and `sub_routine`; nothing else changes |
| RamStack.PushPopRoundTrip | cpu.py:44-48 | With the RAM stack, PUSH a then POP a restores every register, the stack pointer included |
| RamStack.PushPopMoves | cpu.py:44-48 | With the RAM stack, PUSH a then POP b copies register a into register b |
| RamStack.CallRetResumes | cpu.py:244-253 | With the RAM stack, RET after a CALL whose body kept the stack pointer and RAM resumes at the CALL's address + 2, with the stack pointer restored |
| RamStack.PushPopLosesValue | cpu.py:194-195 | As written, with SP = 5 and R0 = 42, `PUSH R0; POP R0` leaves R0 = 0 and R4 = 42 |
| ClearEqualJump.JneOnClearEqual | cpu.py:31 | JNE as its comment describes it: with the E bit set it only clears `sub_routine`; with it clear it sets `pc = reg[a]` and `sub_routine`, or faults on a bad register with nothing changed |
| ClearEqualJump.JneFallsThroughOnZeroFlag | cpu.py:270-275 | As written, on flag 0 the E bit is clear yet JNE falls through; the corrected JNE jumps to `reg[a]` |
| ClearEqualJump.JeqOrClearEqualJump | cpu.py:263-275 | On every flag a run can produce, exactly one of JEQ and the corrected JNE jumps; on a flag set by CMP the corrected JNE agrees with the code's |
| ClearEqualJump.ClearEqualFollowsCompare | cpu.py:158-166 | After `CMP x, y` the corrected JNE jumps iff x != y |

## Left out

- `trace` (cpu.py:171-189) and the `print(op)` in `alu`: they only print to the console. PRN's print is modelled as an append to `output`.
- File handling in `load`: `open`, `readlines`, `FileNotFoundError`, `sys.argv` and `sys.exit`. `CPU.Load` takes the file's lines as a parameter.
- The `can_run`, `IR` and `sp` fields. `sp` is the constant 7 (`Semantics.SP`). `IR` is only read by the MOD error message.
- Exception texts. Faults carry what identifies them: the address and opcode, or the bad index.
- The body of `not_op`, and the bodies of `st`, `shl_op`, `shr_op`, `mod_op`, `int_op` and `iret_op`. `not_op` is never reached because dispatch fails on its parameter count. The others contain only `pass`. The `alu` branches they would call are modelled and stated directly (`Properties.AluShift`, `AluComplement`, `AluModulo`).
- Semantics.Run: cut off after a given number of iterations, because a program may loop forever. A run that does not stop within the fuel ends with `OutOfFuel`.
- Loader.ParseBase2: Unicode decimal digits that Python's `int` also accepts (for example Arabic-Indic digits) are not accepted. Program files use ASCII `0` and `1`.

## Findings

| source | as written | input that shows it | evidently intended | confidence | as-written member | corrected member |
|---|---|---|---|---|---|---|
| cpu.py:194-195 | `raw_write` stores into `self.reg[MAR]`, so PUSH and CALL write the register file while POP and RET read RAM | SP = 5, R0 = 42: `PUSH R0; POP R0` leaves R0 = 0 and R4 = 42; with SP = 0xF4 as set by `__init__`, the first CALL, or a PUSH of a valid register, faults on register 0xF3, keeping the decrement (a PUSH of an invalid register faults on that register first) | `self.ram[MAR] = MDR`, so that POP undoes PUSH and RET returns after CALL | not executed | RamStack.PushPopLosesValue | RamStack.PushPopRoundTrip |
| cpu.py:270-275 | `jne_op` jumps only when the flag is exactly 0b010 or 0b100, while the comment on JNE (cpu.py:31) says it jumps when the E flag is clear | flag 0, as `__init__` sets it: `JNE R0` as the first branch falls through although E is clear | jump whenever bit 0 (E) of the flag is clear | not executed | ClearEqualJump.JneFallsThroughOnZeroFlag | ClearEqualJump.JeqOrClearEqualJump |

`Semantics.Cycle` and `Emulator.CPU` keep the handlers as written, because the
program runs that way. The corrected handlers are `RamStack.PushToRam` and
`RamStack.CallToRam`. Three lemmas are proved about them:
`RamStack.PushPopRoundTrip`, `RamStack.PushPopMoves` and
`RamStack.CallRetResumes`. The corrected JNE is `ClearEqualJump.JneOnClearEqual`;
`ClearEqualJump.JeqOrClearEqualJump` proves that on every flag a run can
produce (`Properties.RunKeepsFlag`) exactly one of JEQ and it jumps.
