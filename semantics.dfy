/**
 * The machine state of cpu.py's CPU as a value, and one function per handler
 * saying what that handler does to it. Indexing follows Python's list rules:
 * an index i into a list of length n is valid when -n <= i < n, a negative
 * index counts from the end, and any other index raises IndexError, which
 * here is a fault that leaves the state as the handler had left it so far.
 */
module Semantics {
  import opened Wrappers
  import opened Isa
  import opened PyInt

  const RamSize: nat := 256
  const RegCount: nat := 8
  /** `self.sp`: the index of the register that holds the stack pointer. */
  const SP: nat := 7
  const InitialSp := 0xF4

  /** The values CMP leaves in `flag` (0b001, 0b010 and 0b100). */
  const FlagEqual := 1
  const FlagGreater := 2
  const FlagLess := 4

  /** The exceptions that end a run. */
  datatype Fault =
    | InvalidInstruction(address: int, opcode: int) // opcode not in the dispatch table
    | RamIndexError(index: int)                     // IndexError on `ram`
    | RegIndexError(index: int)                     // IndexError on `reg`
    | WrongArity(opcode: int)                       // handler declared with the wrong parameters
    | NegativeShift(count: int)                     // ValueError from `<<` or `>>`
    | ZeroModulus                                   // MOD with a zero divisor
    | UnsupportedAluOperation(name: string)

  /** The fields of a CPU object; `output` holds what PRN printed. */
  datatype Machine = Machine(
    ram: seq<int>,
    reg: seq<int>,
    pc: int,
    flag: int,
    halted: bool,
    subRoutine: bool,
    output: seq<int>)

  predicate Shaped(m: Machine) {
    |m.ram| == RamSize && |m.reg| == RegCount
  }

  /** The state after a handler, and the fault it raised, if any. */
  datatype Outcome = Outcome(state: Machine, fault: Option<Fault>)

  function Ok(m: Machine): Outcome { Outcome(m, None) }
  function Fail(m: Machine, f: Fault): Outcome { Outcome(m, Some(f)) }

  /** Python accepts index i into a list of length n when -n <= i < n. */
  predicate InBounds(i: int, n: nat) { -(n as int) <= i < n }

  /** The position a valid Python index denotes. */
  function Slot(i: int, n: nat): (k: nat)
    requires InBounds(i, n)
    ensures k < n && (k == i || k == i + n)
  {
    if i < 0 then n + i else i
  }

  /** Python's `s[i]`. */
  function ReadAt(s: seq<int>, i: int): int
    requires InBounds(i, |s|)
  {
    s[Slot(i, |s|)]
  }

  /** Python's `s[i] = v`. */
  function WriteAt(s: seq<int>, i: int, v: int): (t: seq<int>)
    requires InBounds(i, |s|)
    ensures |t| == |s|
  {
    s[Slot(i, |s|) := v]
  }

  /** The state `CPU.__init__` builds. */
  function Initial(): (m: Machine)
    ensures Shaped(m)
  {
    Machine(seq(RamSize, _ => 0), seq(RegCount, i => if i == SP then InitialSp else 0),
            0, 0, false, false, [])
  }

  // ---------------------------------------------------------------------
  // The ALU

  /**
   * The operation names `alu` accepts, as a closed type; `AluOther` stands for
   * any other name, which `alu` rejects.
   */
  datatype AluOp =
    | AluAdd | AluMul | AluAnd | AluOr | AluXor | AluShl | AluShr | AluNot | AluMod | AluCmp
    | AluOther(name: string)

  /** The operations that read two registers and store a result in the first. */
  predicate IsBinary(op: AluOp) {
    op.AluAdd? || op.AluMul? || op.AluAnd? || op.AluOr? || op.AluXor? || op.AluShl? || op.AluShr?
  }

  /** What `alu` stores for a two-register operation. */
  function Binary(op: AluOp, x: int, y: int): int
    requires IsBinary(op)
    requires (op.AluShl? || op.AluShr?) ==> y >= 0
  {
    match op
    case AluAdd => x + y
    case AluMul => x * y
    case AluAnd => Bitwise(AndBits, x, y)
    case AluOr => Bitwise(OrBits, x, y)
    case AluXor => Bitwise(XorBits, x, y)
    case AluShl => ShiftLeft(x, y)
    case AluShr => ShiftRight(x, y)
  }

  /** The flag CMP stores; exactly one of the three outcomes holds for integers. */
  function CompareFlag(x: int, y: int): (f: int)
    ensures (f == FlagEqual) == (x == y)
    ensures (f == FlagGreater) == (x > y)
    ensures (f == FlagLess) == (x < y)
  {
    if x == y then FlagEqual
    else if x > y then FlagGreater
    else if x < y then FlagLess
    else 0
  }

  /** `alu(op, reg_a, reg_b)`: operands are register indices; reads happen in Python's order. */
  function Alu(m: Machine, op: AluOp, a: int, b: int): (r: Outcome)
    requires Shaped(m)
    ensures Shaped(r.state) && r.state.ram == m.ram
  {
    match op
    case AluNot =>
      if !InBounds(a, RegCount) then Fail(m, RegIndexError(a))
      else Ok(m.(reg := WriteAt(m.reg, a, Invert(ReadAt(m.reg, a)))))
    case AluMod =>
      if !InBounds(b, RegCount) then Fail(m, RegIndexError(b))
      else if ReadAt(m.reg, b) == 0 then Fail(m, ZeroModulus)
      else if !InBounds(a, RegCount) then Fail(m, RegIndexError(a))
      else Ok(m.(reg := WriteAt(m.reg, a, FloorMod(ReadAt(m.reg, a), ReadAt(m.reg, b)))))
    case AluCmp =>
      if !InBounds(a, RegCount) then Fail(m, RegIndexError(a))
      else if !InBounds(b, RegCount) then Fail(m, RegIndexError(b))
      else Ok(m.(flag := CompareFlag(ReadAt(m.reg, a), ReadAt(m.reg, b))))
    case AluOther(name) => Fail(m, UnsupportedAluOperation(name))
    case AluAdd => BinaryAlu(m, op, a, b)
    case AluMul => BinaryAlu(m, op, a, b)
    case AluAnd => BinaryAlu(m, op, a, b)
    case AluOr => BinaryAlu(m, op, a, b)
    case AluXor => BinaryAlu(m, op, a, b)
    case AluShl => BinaryAlu(m, op, a, b)
    case AluShr => BinaryAlu(m, op, a, b)
  }

  /** The branches of `alu` that read two registers and store into the first. */
  function BinaryAlu(m: Machine, op: AluOp, a: int, b: int): (r: Outcome)
    requires Shaped(m) && IsBinary(op)
    ensures Shaped(r.state) && r.state.ram == m.ram
  {
    if !InBounds(a, RegCount) then Fail(m, RegIndexError(a))
    else if !InBounds(b, RegCount) then Fail(m, RegIndexError(b))
    else
      var x, y := ReadAt(m.reg, a), ReadAt(m.reg, b);
      if (op.AluShl? || op.AluShr?) && y < 0 then Fail(m, NegativeShift(y))
      else Ok(m.(reg := WriteAt(m.reg, a, Binary(op, x, y))))
  }

  // ---------------------------------------------------------------------
  // The handlers

  /** `raw_write(MAR, MDR)`: stores into the REGISTER file at index MAR. */
  function RawWrite(m: Machine, mar: int, mdr: int): (r: Outcome)
    requires Shaped(m)
    ensures Shaped(r.state) && r.state.ram == m.ram
  {
    if !InBounds(mar, RegCount) then Fail(m, RegIndexError(mar))
    else Ok(m.(reg := WriteAt(m.reg, mar, mdr)))
  }

  function HaltOp(m: Machine): (r: Outcome)
    requires Shaped(m)
    ensures Shaped(r.state) && r.state.ram == m.ram
  {
    Ok(m.(halted := true))
  }

  function PopOp(m: Machine, a: int): (r: Outcome)
    requires Shaped(m)
    ensures Shaped(r.state) && r.state.ram == m.ram
  {
    var sp := m.reg[SP];
    if !InBounds(sp, RamSize) then Fail(m, RamIndexError(sp))
    else if !InBounds(a, RegCount) then Fail(m, RegIndexError(a))
    else
      var reg := WriteAt(m.reg, a, ReadAt(m.ram, sp));
      Ok(m.(reg := reg[SP := reg[SP] + 1]))
  }

  function PushOp(m: Machine, a: int): (r: Outcome)
    requires Shaped(m)
    ensures Shaped(r.state) && r.state.ram == m.ram
  {
    var m1 := m.(reg := m.reg[SP := m.reg[SP] - 1]);
    if !InBounds(a, RegCount) then Fail(m1, RegIndexError(a))
    else
      var w := RawWrite(m1, m1.reg[SP], ReadAt(m1.reg, a));
      if w.fault.Some? then w else Ok(w.state.(subRoutine := false))
  }

  function PrnOp(m: Machine, a: int): (r: Outcome)
    requires Shaped(m)
    ensures Shaped(r.state) && r.state.ram == m.ram
  {
    if !InBounds(a, RegCount) then Fail(m, RegIndexError(a))
    else Ok(m.(output := m.output + [ReadAt(m.reg, a)], subRoutine := false))
  }

  function LdiOp(m: Machine, a: int, b: int): (r: Outcome)
    requires Shaped(m)
    ensures Shaped(r.state) && r.state.ram == m.ram
  {
    if !InBounds(a, RegCount) then Fail(m, RegIndexError(a))
    else Ok(m.(reg := WriteAt(m.reg, a, b), subRoutine := false))
  }

  /** add_op, mul_op, cmp_op, and_op, or_op, xor_op: the ALU, then `sub_routine = False`. */
  function AluHandler(m: Machine, op: AluOp, a: int, b: int): (r: Outcome)
    requires Shaped(m)
    ensures Shaped(r.state) && r.state.ram == m.ram
  {
    var r := Alu(m, op, a, b);
    if r.fault.Some? then r else Ok(r.state.(subRoutine := false))
  }

  function CallOp(m: Machine, a: int): (r: Outcome)
    requires Shaped(m)
    ensures Shaped(r.state) && r.state.ram == m.ram
  {
    var m1 := m.(reg := m.reg[SP := m.reg[SP] - 1]);
    var w := RawWrite(m1, m1.reg[SP], m.pc + 2);
    if w.fault.Some? then w
    else if !InBounds(a, RegCount) then Fail(w.state, RegIndexError(a))
    else Ok(w.state.(pc := ReadAt(w.state.reg, a), subRoutine := true))
  }

  function RetOp(m: Machine): (r: Outcome)
    requires Shaped(m)
    ensures Shaped(r.state) && r.state.ram == m.ram
  {
    var sp := m.reg[SP];
    if !InBounds(sp, RamSize) then Fail(m, RamIndexError(sp))
    else Ok(m.(pc := ReadAt(m.ram, sp), reg := m.reg[SP := sp + 1], subRoutine := true))
  }

  function JmpOp(m: Machine, a: int): (r: Outcome)
    requires Shaped(m)
    ensures Shaped(r.state) && r.state.ram == m.ram
  {
    if !InBounds(a, RegCount) then Fail(m, RegIndexError(a))
    else Ok(m.(pc := ReadAt(m.reg, a), subRoutine := true))
  }

  /** The flag values on which JEQ and JNE jump. */
  predicate JeqTakes(flag: int) { flag == FlagEqual }
  predicate JneTakes(flag: int) { flag == FlagLess || flag == FlagGreater }

  function JeqOp(m: Machine, a: int): (r: Outcome)
    requires Shaped(m)
    ensures Shaped(r.state) && r.state.ram == m.ram
  {
    if JeqTakes(m.flag) then JmpOp(m, a) else Ok(m.(subRoutine := false))
  }

  function JneOp(m: Machine, a: int): (r: Outcome)
    requires Shaped(m)
    ensures Shaped(r.state) && r.state.ram == m.ram
  {
    if JneTakes(m.flag) then JmpOp(m, a)
    else Ok(m.(subRoutine := false))
  }

  /** `self.branchTable[IR](operand_a, operand_b)`. */
  function Dispatch(m: Machine, h: Handler, a: int, b: int): (r: Outcome)
    requires Shaped(m)
    ensures Shaped(r.state) && r.state.ram == m.ram
  {
    match h
    case Halt => HaltOp(m)
    case Ldi => LdiOp(m, a, b)
    case Prn => PrnOp(m, a)
    case Add => AluHandler(m, AluAdd, a, b)
    case Mul => AluHandler(m, AluMul, a, b)
    case Push => PushOp(m, a)
    case Pop => PopOp(m, a)
    case Cmp => AluHandler(m, AluCmp, a, b)
    case Jeq => JeqOp(m, a)
    case Jne => JneOp(m, a)
    case Jmp => JmpOp(m, a)
    case Call => CallOp(m, a)
    case Ret => RetOp(m)
    case And => AluHandler(m, AluAnd, a, b)
    case Or => AluHandler(m, AluOr, a, b)
    case Xor => AluHandler(m, AluXor, a, b)
    case Not => Fail(m, WrongArity(NOT))
    case Shl => Fail(m, WrongArity(SHL))
    case Shr => Fail(m, WrongArity(SHR))
    case Mod => Fail(m, WrongArity(MOD))
    case Int => Fail(m, WrongArity(INT))
    case Iret => Fail(m, WrongArity(IRET))
  }

  // ---------------------------------------------------------------------
  // The run loop

  predicate Fetchable(m: Machine) {
    InBounds(m.pc, RamSize) && InBounds(m.pc + 1, RamSize) && InBounds(m.pc + 2, RamSize)
  }

  function Opcode(m: Machine): int
    requires Shaped(m) && InBounds(m.pc, RamSize)
  {
    ReadAt(m.ram, m.pc)
  }

  function OperandA(m: Machine): int
    requires Shaped(m) && InBounds(m.pc + 1, RamSize)
  {
    ReadAt(m.ram, m.pc + 1)
  }

  function OperandB(m: Machine): int
    requires Shaped(m) && InBounds(m.pc + 2, RamSize)
  {
    ReadAt(m.ram, m.pc + 2)
  }

  /**
   * One iteration of `run`'s loop: fetch the opcode and both operand bytes,
   * dispatch, and advance `pc` past the instruction unless `sub_routine` is set.
   * No instruction writes `ram`.
   */
  function Cycle(m: Machine): (r: Outcome)
    requires Shaped(m)
    ensures Shaped(r.state) && r.state.ram == m.ram
  {
    if !InBounds(m.pc, RamSize) then Fail(m, RamIndexError(m.pc))
    else if !InBounds(m.pc + 1, RamSize) then Fail(m, RamIndexError(m.pc + 1))
    else if !InBounds(m.pc + 2, RamSize) then Fail(m, RamIndexError(m.pc + 2))
    else if Opcode(m) !in BranchTable then Fail(m, InvalidInstruction(m.pc, Opcode(m)))
    else
      var r := Dispatch(m, BranchTable[Opcode(m)], OperandA(m), OperandB(m));
      if r.fault.Some? || r.state.subRoutine then r
      else Ok(r.state.(pc := r.state.pc + OperandCount(Opcode(m)) + 1))
  }

  datatype RunOutcome = Halted | Faulted(fault: Fault) | OutOfFuel

  datatype RunResult = RunResult(state: Machine, outcome: RunOutcome)

  /**
   * `run`, cut off after `fuel` iterations since a program may loop forever.
   * A run that halts has HALTED set; RAM is never written.
   */
  function Run(m: Machine, fuel: nat): (r: RunResult)
    requires Shaped(m)
    ensures Shaped(r.state)
    ensures r.state.ram == m.ram
    ensures r.outcome.Halted? <==> r.state.halted
    decreases fuel
  {
    if m.halted then RunResult(m, Halted)
    else if fuel == 0 then RunResult(m, OutOfFuel)
    else
      var c := Cycle(m);
      if c.fault.Some? then RunResult(c.state, Faulted(c.fault.value))
      else Run(c.state, fuel - 1)
  }

  /** One unfolding of Run past a non-halted state. */
  lemma RunOnce(m: Machine, fuel: nat, c: Outcome, rest: nat)
    requires Shaped(m) && !m.halted && fuel > 0 && rest == fuel - 1 && c == Cycle(m)
    ensures c.fault.Some? ==> Run(m, fuel) == RunResult(c.state, Faulted(c.fault.value))
    ensures c.fault.None? ==> Run(m, fuel) == Run(c.state, rest)
  {
  }
}
