/**
 * What one iteration of the run loop does, opcode by opcode, and what a run
 * does over many iterations: each lemma states, for every machine state, the
 * outcome of `Cycle` or `Run` in terms of the state before it.
 */
module Properties {
  import opened Wrappers
  import opened PyInt
  import opened Isa
  import opened Semantics

  // ---------------------------------------------------------------------
  // Fetch and decode

  /**
   * The loop reads both operand bytes before it looks at the opcode, so an
   * instruction at address 254 or 255 faults whatever it is, HLT included.
   */
  lemma TopOfRamFaults(m: Machine)
    requires Shaped(m) && (m.pc == 254 || m.pc == 255)
    ensures Cycle(m) == Fail(m, RamIndexError(256))
  {
  }

  /** A program counter beyond RAM faults on the opcode fetch and changes nothing. */
  lemma FetchOutsideRamFaults(m: Machine)
    requires Shaped(m) && !InBounds(m.pc, RamSize)
    ensures Cycle(m) == Fail(m, RamIndexError(m.pc))
  {
  }

  /**
   * An opcode absent from the dispatch table, and only such an opcode, raises
   * InvalidInstruction with the opcode and its address; the state is untouched.
   */
  lemma InvalidInstructionIff(m: Machine)
    requires Shaped(m) && Fetchable(m)
    ensures Cycle(m).fault == Some(InvalidInstruction(m.pc, Opcode(m))) <==> Opcode(m) !in BranchTable
    ensures Opcode(m) !in BranchTable ==> Cycle(m).state == m
  {
    if Opcode(m) in BranchTable {
      DispatchRaisesNoInvalid(m, BranchTable[Opcode(m)], OperandA(m), OperandB(m));
    }
  }

  lemma DispatchRaisesNoInvalid(m: Machine, h: Handler, a: int, b: int)
    requires Shaped(m)
    ensures Dispatch(m, h, a, b).fault.Some? ==> !Dispatch(m, h, a, b).fault.value.InvalidInstruction?
  {
  }

  /** A handler that leaves `sub_routine` clear has not moved `pc`. */
  lemma SequentialHandlerKeepsPc(m: Machine, h: Handler, a: int, b: int)
    requires Shaped(m)
    ensures var r := Dispatch(m, h, a, b);
      r.fault.None? && !r.state.subRoutine ==> r.state.pc == m.pc
  {
  }

  /**
   * After a successful step with `sub_routine` clear, `pc` has moved past the
   * opcode and the operand count encoded in its top two bits.
   */
  lemma SequentialStepAdvancesPc(m: Machine)
    requires Shaped(m) && Fetchable(m)
    ensures var r := Cycle(m);
      r.fault.None? && !r.state.subRoutine ==>
        r.state.pc == m.pc + (Opcode(m) / 64) % 4 + 1
  {
    if Opcode(m) in BranchTable {
      SequentialHandlerKeepsPc(m, BranchTable[Opcode(m)], OperandA(m), OperandB(m));
    }
  }

  /** The six handlers declared with the wrong parameters fault as soon as they are called. */
  lemma MisDeclaredHandlersFault(m: Machine)
    requires Shaped(m) && Fetchable(m)
    requires Opcode(m) in {NOT, SHL, SHR, MOD, INT, IRET}
    ensures Cycle(m) == Fail(m, WrongArity(Opcode(m)))
  {
    var h := BranchTable[Opcode(m)];
    assert h in {Not, Shl, Shr, Mod, Int, Iret};
    assert Dispatch(m, h, OperandA(m), OperandB(m)) == Fail(m, WrongArity(Opcode(m)));
  }

  // ---------------------------------------------------------------------
  // ALU operations no handler reaches

  /**
   * `alu('MOD', a, b)` checks the divisor first: zero faults whatever a is;
   * otherwise register a gets Python's remainder, which takes the divisor's sign.
   */
  lemma AluModulo(m: Machine, a: int, b: int)
    requires Shaped(m)
    ensures InBounds(b, RegCount) && ReadAt(m.reg, b) == 0 ==> Alu(m, AluMod, a, b) == Fail(m, ZeroModulus)
    ensures Alu(m, AluMod, a, b).fault.None? <==>
      InBounds(a, RegCount) && InBounds(b, RegCount) && ReadAt(m.reg, b) != 0
    ensures Alu(m, AluMod, a, b).fault.None? ==>
      var x, y, r := ReadAt(m.reg, a), ReadAt(m.reg, b), Alu(m, AluMod, a, b).state;
      var z := ReadAt(r.reg, a);
      && r == m.(reg := WriteAt(m.reg, a, z))
      && (exists q :: x == q * y + z)
      && (y > 0 ==> 0 <= z < y)
      && (y < 0 ==> y < z <= 0)
  {
    if Alu(m, AluMod, a, b).fault.None? {
      var x, y := ReadAt(m.reg, a), ReadAt(m.reg, b);
      FloorDivMod(x, y);
      assert x == FloorDiv(x, y) * y + FloorMod(x, y);
    }
  }

  /**
   * `alu('SHL'|'SHR', a, b)` multiplies or floor-divides register a by 2 to
   * the power of register b; a negative count faults. Shifting left and then
   * right by the same count gives the value back.
   */
  lemma AluShift(m: Machine, a: int, b: int)
    requires Shaped(m) && InBounds(a, RegCount) && InBounds(b, RegCount)
    ensures var x, y := ReadAt(m.reg, a), ReadAt(m.reg, b);
      && (y < 0 ==> Alu(m, AluShl, a, b) == Fail(m, NegativeShift(y)) && Alu(m, AluShr, a, b) == Fail(m, NegativeShift(y)))
      && (y >= 0 ==> Alu(m, AluShl, a, b) == Ok(m.(reg := WriteAt(m.reg, a, x * Pow2(y)))))
      && (y >= 0 ==> Alu(m, AluShr, a, b) == Ok(m.(reg := WriteAt(m.reg, a, x / Pow2(y)))))
    ensures var y := ReadAt(m.reg, b);
      y >= 0 && Slot(a, RegCount) != Slot(b, RegCount) ==>
        var left := Alu(m, AluShl, a, b).state;
        Alu(left, AluShr, a, b) == Ok(m)
  {
    var x, y := ReadAt(m.reg, a), ReadAt(m.reg, b);
    if y >= 0 && Slot(a, RegCount) != Slot(b, RegCount) {
      ShiftRoundTrip(x, y);
      var left := Alu(m, AluShl, a, b).state;
      assert ReadAt(left.reg, b) == y;
      assert WriteAt(left.reg, a, x) == m.reg;
    }
  }

  /** `alu('NOT', a)` stores `~reg[a]`, and applying it twice restores the register. */
  lemma AluComplement(m: Machine, a: int, b: int)
    requires Shaped(m) && InBounds(a, RegCount)
    ensures Alu(m, AluNot, a, b) == Ok(m.(reg := WriteAt(m.reg, a, -ReadAt(m.reg, a) - 1)))
    ensures Alu(Alu(m, AluNot, a, b).state, AluNot, a, b) == Ok(m)
  {
    var once := Alu(m, AluNot, a, b).state;
    InvertInvolution(ReadAt(m.reg, a));
    assert WriteAt(once.reg, a, ReadAt(m.reg, a)) == m.reg;
  }

  /** Any operation name outside the ones `alu` lists raises "Unsupported ALU operation". */
  lemma AluRejectsUnknown(m: Machine, name: string, a: int, b: int)
    requires Shaped(m)
    ensures Alu(m, AluOther(name), a, b) == Fail(m, UnsupportedAluOperation(name))
  {
  }

  // ---------------------------------------------------------------------
  // HLT and PRN

  /**
   * HLT sets HALTED and nothing else; `pc` still advances past it unless the
   * previous instruction left `sub_routine` set.
   */
  lemma HaltStep(m: Machine)
    requires Shaped(m) && Fetchable(m) && Opcode(m) == HLT
    ensures Cycle(m) == Ok(m.(halted := true, pc := if m.subRoutine then m.pc else m.pc + 1))
  {
  }

  /** Once HLT has executed, the loop stops whatever fuel is left. */
  lemma RunStopsAfterHalt(m: Machine, fuel: nat)
    requires Shaped(m) && Fetchable(m) && Opcode(m) == HLT
    ensures Run(Cycle(m).state, fuel) == RunResult(Cycle(m).state, Halted)
  {
    HaltStep(m);
  }

  /** PRN appends the register's value to the output and changes nothing else. */
  lemma PrnStep(m: Machine)
    requires Shaped(m) && Fetchable(m) && Opcode(m) == PRN
    ensures Cycle(m).fault.None? <==> InBounds(OperandA(m), RegCount)
    ensures Cycle(m).fault.None? ==>
      Cycle(m).state == m.(output := m.output + [ReadAt(m.reg, OperandA(m))], pc := m.pc + 2, subRoutine := false)
    ensures Cycle(m).fault.Some? ==> Cycle(m).state == m
  {
  }

  // ---------------------------------------------------------------------
  // Register-only instructions

  /** LDI writes the literal operand byte into register a and touches nothing else. */
  lemma LdiStep(m: Machine)
    requires Shaped(m) && Fetchable(m) && Opcode(m) == LDI
    ensures Cycle(m).fault.None? <==> InBounds(OperandA(m), RegCount)
    ensures Cycle(m).fault.None? ==>
      Cycle(m).state == m.(reg := WriteAt(m.reg, OperandA(m), OperandB(m)), pc := m.pc + 3, subRoutine := false)
    ensures Cycle(m).fault.Some? ==> Cycle(m).state == m
  {
  }

  /**
   * ADD, MUL, AND, OR and XOR store `reg[a] op reg[b]` into register a with
   * Python's unbounded operators (no 8-bit masking) and touch nothing else.
   */
  lemma ArithmeticStep(m: Machine)
    requires Shaped(m) && Fetchable(m) && Opcode(m) in {ADD, MUL, AND, OR, XOR}
    ensures var a, b := OperandA(m), OperandB(m);
      Cycle(m).fault.None? <==> InBounds(a, RegCount) && InBounds(b, RegCount)
    ensures var a, b := OperandA(m), OperandB(m);
      Cycle(m).fault.None? ==>
        var x, y := ReadAt(m.reg, a), ReadAt(m.reg, b);
        Cycle(m).state == m.(reg := WriteAt(m.reg, a, Binary(ArithmeticOp(Opcode(m)), x, y)),
                             pc := m.pc + 3, subRoutine := false)
    ensures Cycle(m).fault.Some? ==> Cycle(m).state == m
  {
    ArithmeticDispatch(m);
    BinaryCycle(m, ArithmeticOp(Opcode(m)));
  }

  /** The table sends each arithmetic or bitwise opcode to the ALU handler for its operation. */
  lemma ArithmeticDispatch(m: Machine)
    requires Shaped(m) && Fetchable(m) && Opcode(m) in {ADD, MUL, AND, OR, XOR}
    ensures Opcode(m) in BranchTable && OperandCount(Opcode(m)) == 2
    ensures var op, a, b := ArithmeticOp(Opcode(m)), OperandA(m), OperandB(m);
      Dispatch(m, BranchTable[Opcode(m)], a, b) == AluHandler(m, op, a, b)
  {
    var h := ArithmeticHandler(Opcode(m));
    BranchTableInverse(Opcode(m));
    TableOperandCounts(h);
    AluHandlerDispatch(m, h, OperandA(m), OperandB(m));
  }

  /** The handler whose opcode is an arithmetic or bitwise opcode. */
  function ArithmeticHandler(opcode: int): (h: Handler)
    requires opcode in {ADD, MUL, AND, OR, XOR}
    ensures OpcodeOf(h) == opcode
    ensures h in {Add, Mul, And, Or, Xor} && AluOpOf(h) == ArithmeticOp(opcode)
  {
    if opcode == ADD then Add
    else if opcode == MUL then Mul
    else if opcode == AND then And
    else if opcode == OR then Or
    else Xor
  }

  /** The ALU operation an arithmetic or bitwise handler runs. */
  function AluOpOf(h: Handler): AluOp
    requires h in {Add, Mul, And, Or, Xor}
  {
    match h
    case Add => AluAdd
    case Mul => AluMul
    case And => AluAnd
    case Or => AluOr
    case Xor => AluXor
  }

  /** Dispatching an arithmetic or bitwise handler runs the ALU on its operation. */
  lemma AluHandlerDispatch(m: Machine, h: Handler, a: int, b: int)
    requires Shaped(m) && h in {Add, Mul, And, Or, Xor}
    ensures Dispatch(m, h, a, b) == AluHandler(m, AluOpOf(h), a, b)
  {
  }

  /** The ALU operation the handler of an arithmetic or bitwise opcode passes to `alu`. */
  function ArithmeticOp(opcode: int): (op: AluOp)
    requires opcode in {ADD, MUL, AND, OR, XOR}
    ensures IsBinary(op) && !op.AluShl? && !op.AluShr?
  {
    if opcode == ADD then AluAdd
    else if opcode == MUL then AluMul
    else if opcode == AND then AluAnd
    else if opcode == OR then AluOr
    else AluXor
  }

  /** One step of an instruction whose handler runs a two-register ALU operation that cannot fault on its values. */
  lemma BinaryCycle(m: Machine, op: AluOp)
    requires Shaped(m) && Fetchable(m) && Opcode(m) in BranchTable
    requires op in {AluAdd, AluMul, AluAnd, AluOr, AluXor}
    requires Dispatch(m, BranchTable[Opcode(m)], OperandA(m), OperandB(m)) == AluHandler(m, op, OperandA(m), OperandB(m))
    requires OperandCount(Opcode(m)) == 2
    ensures var a, b := OperandA(m), OperandB(m);
      Cycle(m).fault.None? <==> InBounds(a, RegCount) && InBounds(b, RegCount)
    ensures var a, b := OperandA(m), OperandB(m);
      Cycle(m).fault.None? ==>
        Cycle(m).state == m.(reg := WriteAt(m.reg, a, Binary(op, ReadAt(m.reg, a), ReadAt(m.reg, b))),
                             pc := m.pc + 3, subRoutine := false)
    ensures Cycle(m).fault.Some? ==> Cycle(m).state == m
  {
  }

  /**
   * CMP writes only `flag`, leaving exactly one of equal, greater or less
   * according to the integer comparison of the two registers.
   */
  lemma CompareStep(m: Machine)
    requires Shaped(m) && Fetchable(m) && Opcode(m) == CMP
    ensures var a, b := OperandA(m), OperandB(m);
      Cycle(m).fault.None? <==> InBounds(a, RegCount) && InBounds(b, RegCount)
    ensures var a, b, r := OperandA(m), OperandB(m), Cycle(m);
      r.fault.None? ==>
        var x, y, f := ReadAt(m.reg, a), ReadAt(m.reg, b), r.state.flag;
        && r.state == m.(flag := f, pc := m.pc + 3, subRoutine := false)
        && (f == FlagEqual || f == FlagGreater || f == FlagLess)
        && (f == FlagEqual <==> x == y)
        && (f == FlagGreater <==> x > y)
        && (f == FlagLess <==> x < y)
    ensures Cycle(m).fault.Some? ==> Cycle(m).state == m
  {
  }

  // ---------------------------------------------------------------------
  // Branches

  /**
   * JMP always jumps; JEQ jumps exactly when the flag says equal; JNE exactly
   * when it says greater or less. A taken branch sets `pc` to register a and
   * `sub_routine`; one not taken clears `sub_routine` and moves past its two bytes.
   */
  lemma BranchStep(m: Machine)
    requires Shaped(m) && Fetchable(m) && Opcode(m) in {JMP, JEQ, JNE}
    ensures var taken := Opcode(m) == JMP
                         || (Opcode(m) == JEQ && m.flag == FlagEqual)
                         || (Opcode(m) == JNE && (m.flag == FlagGreater || m.flag == FlagLess));
      && (!taken ==> Cycle(m) == Ok(m.(pc := m.pc + 2, subRoutine := false)))
      && (taken ==> (Cycle(m).fault.None? <==> InBounds(OperandA(m), RegCount)))
      && (taken && Cycle(m).fault.None? ==>
            Cycle(m).state == m.(pc := ReadAt(m.reg, OperandA(m)), subRoutine := true))
      && (Cycle(m).fault.Some? ==> Cycle(m).state == m)
  {
  }

  /** After `CMP x, y`, JEQ jumps iff x == y and JNE jumps iff x != y. */
  lemma BranchFollowsCompare(x: int, y: int)
    ensures JeqTakes(CompareFlag(x, y)) <==> x == y
    ensures JneTakes(CompareFlag(x, y)) <==> x != y
  {
  }

  // ---------------------------------------------------------------------
  // The stack

  /**
   * POP copies the RAM cell at the stack pointer into register a, then
   * increments the stack pointer; it leaves `sub_routine` as it was, so after
   * a taken jump it does not advance `pc`.
   */
  lemma PopStep(m: Machine)
    requires Shaped(m) && Fetchable(m) && Opcode(m) == POP
    ensures var a, sp := OperandA(m), m.reg[SP];
      Cycle(m).fault.None? <==> InBounds(sp, RamSize) && InBounds(a, RegCount)
    ensures var a, sp := OperandA(m), m.reg[SP];
      Cycle(m).fault.None? ==>
        var popped := WriteAt(m.reg, a, ReadAt(m.ram, sp));
        Cycle(m).state == m.(reg := popped[SP := popped[SP] + 1],
                             pc := if m.subRoutine then m.pc else m.pc + 2)
    ensures Cycle(m).fault.Some? ==> Cycle(m).state == m
  {
  }

  /** With `sub_routine` left set by a jump, a successful POP stays put and runs again next iteration. */
  lemma PopRepeatsAfterJump(m: Machine)
    requires Shaped(m) && Fetchable(m) && Opcode(m) == POP && m.subRoutine
    requires Cycle(m).fault.None?
    ensures Cycle(m).state.pc == m.pc && Cycle(m).state.subRoutine
    ensures Opcode(Cycle(m).state) == POP
  {
    PopStep(m);
  }

  /** RET loads `pc` from the RAM cell at the stack pointer, then increments the stack pointer. */
  lemma RetStep(m: Machine)
    requires Shaped(m) && Fetchable(m) && Opcode(m) == RET
    ensures var sp := m.reg[SP];
      && (Cycle(m).fault.None? <==> InBounds(sp, RamSize))
      && (Cycle(m).fault.None? ==>
            Cycle(m).state == m.(pc := ReadAt(m.ram, sp), reg := m.reg[SP := sp + 1], subRoutine := true))
      && (Cycle(m).fault.Some? ==> Cycle(m).state == m)
  {
  }

  /**
   * PUSH decrements the stack pointer, then stores register a through
   * `raw_write` into the REGISTER at the new stack pointer; RAM is never
   * written. The decrement survives a fault.
   */
  lemma PushStep(m: Machine)
    requires Shaped(m) && Fetchable(m) && Opcode(m) == PUSH
    ensures var a, sp := OperandA(m), m.reg[SP] - 1;
      Cycle(m).fault.None? <==> InBounds(a, RegCount) && InBounds(sp, RegCount)
    ensures var a, sp := OperandA(m), m.reg[SP] - 1;
      var lowered := m.reg[SP := sp];
      && (Cycle(m).fault.None? ==>
            Cycle(m).state == m.(reg := WriteAt(lowered, sp, ReadAt(lowered, a)), pc := m.pc + 2, subRoutine := false))
      && (Cycle(m).fault.Some? ==> Cycle(m).state == m.(reg := lowered))
      && (InBounds(a, RegCount) && !InBounds(sp, RegCount) ==> Cycle(m).fault == Some(RegIndexError(sp)))
  {
    var r := PushOp(m, OperandA(m));
    assert BranchTable[PUSH] == Push;
    assert Cycle(m) == if r.fault.Some? then r else Ok(r.state.(pc := r.state.pc + 2));
  }

  /**
   * CALL decrements the stack pointer, stores the return address `pc + 2`
   * into the REGISTER at the new stack pointer, then jumps to register a.
   */
  lemma CallStep(m: Machine)
    requires Shaped(m) && Fetchable(m) && Opcode(m) == CALL
    ensures var a, sp := OperandA(m), m.reg[SP] - 1;
      Cycle(m).fault.None? <==> InBounds(sp, RegCount) && InBounds(a, RegCount)
    ensures var a, sp := OperandA(m), m.reg[SP] - 1;
      var lowered := m.reg[SP := sp];
      && (!InBounds(sp, RegCount) ==> Cycle(m) == Fail(m.(reg := lowered), RegIndexError(sp)))
      && (InBounds(sp, RegCount) ==>
            var saved := WriteAt(lowered, sp, m.pc + 2);
            && (Cycle(m).fault.None? ==>
                  Cycle(m).state == m.(reg := saved, pc := ReadAt(saved, a), subRoutine := true))
            && (Cycle(m).fault.Some? ==> Cycle(m) == Fail(m.(reg := saved), RegIndexError(a))))
  {
  }

  /**
   * From the stack pointer `CPU.__init__` sets, the first PUSH or CALL
   * faults: register 0xF3 does not exist.
   */
  lemma StackFaultsFromInitialSp(m: Machine)
    requires Shaped(m) && Fetchable(m) && m.reg[SP] == InitialSp
    requires Opcode(m) == CALL || (Opcode(m) == PUSH && InBounds(OperandA(m), RegCount))
    ensures Cycle(m).fault == Some(RegIndexError(0xF3))
    ensures Cycle(m).state.reg[SP] == 0xF3
  {
  }

  /** No instruction writes RAM: a run leaves the program image as it found it. */
  lemma RunNeverWritesRam(m: Machine, fuel: nat)
    requires Shaped(m)
    ensures Run(m, fuel).state.ram == m.ram
  {
  }

  // ---------------------------------------------------------------------
  // Runs

  /** Output is only ever appended to: a run's output extends the initial output. */
  lemma {:induction false} RunExtendsOutput(m: Machine, fuel: nat)
    requires Shaped(m)
    ensures m.output <= Run(m, fuel).state.output
    decreases fuel
  {
    if !m.halted && fuel > 0 {
      var c := Cycle(m);
      var rest := fuel - 1;
      OutputOnlyGrows(m);
      RunOnce(m, fuel, c, rest);
      if c.fault.None? {
        RunExtendsOutput(c.state, rest);
      }
    }
  }

  lemma OutputOnlyGrows(m: Machine)
    requires Shaped(m)
    ensures m.output <= Cycle(m).state.output
  {
    if Fetchable(m) && Opcode(m) in BranchTable {
      DispatchExtendsOutput(m, BranchTable[Opcode(m)], OperandA(m), OperandB(m));
    }
  }

  lemma DispatchExtendsOutput(m: Machine, h: Handler, a: int, b: int)
    requires Shaped(m)
    ensures m.output <= Dispatch(m, h, a, b).state.output
  {
    match h
    case Prn =>
    case _ =>
      assert Dispatch(m, h, a, b).state.output == m.output;
  }

  /** The values the flag can hold: the initial 0, or exactly one of equal, greater and less. */
  predicate FlagOk(f: int) {
    f == 0 || f == FlagEqual || f == FlagGreater || f == FlagLess
  }

  /** Every handler leaves a well-formed flag well-formed: only CMP writes it, and only with `CompareFlag`. */
  lemma DispatchKeepsFlag(m: Machine, h: Handler, a: int, b: int)
    requires Shaped(m) && FlagOk(m.flag)
    ensures FlagOk(Dispatch(m, h, a, b).state.flag)
  {
    match h
    case Cmp =>
    case _ =>
      assert Dispatch(m, h, a, b).state.flag == m.flag;
  }

  lemma CycleKeepsFlag(m: Machine)
    requires Shaped(m) && FlagOk(m.flag)
    ensures FlagOk(Cycle(m).state.flag)
  {
    if Fetchable(m) && Opcode(m) in BranchTable {
      DispatchKeepsFlag(m, BranchTable[Opcode(m)], OperandA(m), OperandB(m));
    }
  }

  /** The flag stays 0 or exactly one of 0b001, 0b010 and 0b100 through any run. */
  lemma {:induction false} RunKeepsFlag(m: Machine, fuel: nat)
    requires Shaped(m) && FlagOk(m.flag)
    ensures FlagOk(Run(m, fuel).state.flag)
    decreases fuel
  {
    if !m.halted && fuel > 0 {
      var c := Cycle(m);
      var rest := fuel - 1;
      CycleKeepsFlag(m);
      RunOnce(m, fuel, c, rest);
      if c.fault.None? {
        RunKeepsFlag(c.state, rest);
      }
    }
  }

  /** More fuel does not change a run that already stopped by halting or faulting. */
  lemma {:induction false} RunFuelMonotone(m: Machine, fuel: nat, extra: nat)
    requires Shaped(m)
    requires !Run(m, fuel).outcome.OutOfFuel?
    ensures Run(m, fuel + extra) == Run(m, fuel)
    decreases fuel
  {
    if !m.halted {
      var c := Cycle(m);
      var rest := fuel - 1;
      var more := fuel + extra;
      var restMore := more - 1;
      RunOnce(m, fuel, c, rest);
      RunOnce(m, more, c, restMore);
      if c.fault.None? {
        RunFuelMonotone(c.state, rest, extra);
        assert restMore == rest + extra;
      }
    }
  }
}

/** Whole programs run from a freshly constructed CPU. */
module Examples {
  import opened Isa
  import opened Semantics
  import opened Properties

  /** A freshly constructed CPU after a program image has been loaded at address 0. */
  function Boot(image: seq<int>): (m: Machine)
    requires |image| <= RamSize
    ensures Shaped(m) && m.ram[..|image|] == image
    ensures forall i :: |image| <= i < RamSize ==> m.ram[i] == 0
    ensures m.reg == Initial().reg && m.pc == 0 && m.flag == 0 && !m.halted && !m.subRoutine && m.output == []
  {
    Initial().(ram := image + seq(RamSize - |image|, _ => 0))
  }

  /**
   * `LDI r,v; PRN r; HLT` prints exactly v, for every byte v and register r,
   * and halts with `pc` past the HLT byte and only register r changed.
   */
  lemma PrintValue(v: int, r: int)
    requires 0 <= v < 256 && 0 <= r < RegCount
    ensures var o := Run(Boot([LDI, r, v, PRN, r, HLT]), 3);
      && o.outcome == Halted
      && o.state.output == [v]
      && o.state.pc == 6
      && o.state.reg == Initial().reg[r := v]
  {
    var m0 := Boot([LDI, r, v, PRN, r, HLT]);
    assert m0.ram[0] == LDI && m0.ram[1] == r && m0.ram[2] == v;
    LdiStep(m0);
    var regs := Initial().reg[r := v];
    var m1 := m0.(reg := regs, pc := 3, subRoutine := false);
    assert WriteAt(m0.reg, r, v) == regs;
    assert Cycle(m0) == Ok(m1);
    RunOnce(m0, 3, Cycle(m0), 2);
    assert m1.ram[3] == PRN && m1.ram[4] == r;
    PrnStep(m1);
    assert ReadAt(regs, r) == v;
    var m2 := m1.(output := [v], pc := 5);
    assert Cycle(m1) == Ok(m2);
    RunOnce(m1, 2, Cycle(m1), 1);
    assert m2.ram[5] == HLT;
    HaltStep(m2);
    RunOnce(m2, 1, Cycle(m2), 0);
  }

  /**
   * `LDI R0,10; LDI R1,0; DIV R0,R1`: DIV has no entry in the dispatch table,
   * so the third instruction raises InvalidInstruction at address 6 with R0
   * still 10; no division is ever attempted.
   */
  lemma DivideIsInvalid()
    ensures var r := Run(Boot([LDI, 0, 10, LDI, 1, 0, DIV, 0, 1]), 3);
      && r.outcome == Faulted(InvalidInstruction(6, DIV))
      && r.state.pc == 6
      && r.state.reg[0] == 10
      && r.state.reg[1] == 0
  {
    var m0 := Boot([LDI, 0, 10, LDI, 1, 0, DIV, 0, 1]);
    assert m0.ram[0] == LDI && m0.ram[1] == 0 && m0.ram[2] == 10;
    LdiStep(m0);
    var m1 := Cycle(m0).state;
    RunOnce(m0, 3, Cycle(m0), 2);
    assert m1.pc == 3 && m1.ram[3] == LDI && m1.ram[4] == 1 && m1.ram[5] == 0;
    LdiStep(m1);
    var m2 := Cycle(m1).state;
    RunOnce(m1, 2, Cycle(m1), 1);
    assert m2.pc == 6 && m2.ram[6] == DIV;
    UnlistedOpcodes();
    InvalidInstructionIff(m2);
    RunOnce(m2, 1, Cycle(m2), 0);
  }
}
