/**
 * The CPU object of cpu.py: RAM and the register file are arrays updated in
 * place, the other fields are scalars. Every method is proved to leave the
 * object in the state the matching function of Semantics computes from the
 * state before the call, and to raise the same fault.
 */
module Emulator {
  import opened Wrappers
  import opened Isa
  import opened Semantics
  import Loader

  class CPU {
    const ram: array<int>
    const reg: array<int>
    var pc: int
    var flag: int
    var halted: bool
    var subRoutine: bool
    /** The values PRN printed, in order. */
    var output: seq<int>

    ghost predicate Valid()
      reads this
    {
      ram.Length == RamSize && reg.Length == RegCount && ram != reg
    }

    /** The object's fields as a Semantics.Machine value. */
    ghost function Snapshot(): Machine
      reads this, ram, reg
    {
      Machine(ram[..], reg[..], pc, flag, halted, subRoutine, output)
    }

    /** `CPU.__init__`: zeroed RAM, zeroed registers except the stack pointer. */
    constructor ()
      ensures Valid() && fresh(ram) && fresh(reg)
      ensures forall i :: 0 <= i < ram.Length ==> ram[i] == 0
      ensures reg[..] == [0, 0, 0, 0, 0, 0, 0, InitialSp]
      ensures pc == 0 && flag == 0 && !halted && !subRoutine && output == []
      ensures Snapshot() == Initial()
    {
      ram := new int[RamSize](_ => 0);
      reg := new int[RegCount](i => if i == SP then InitialSp else 0);
      pc, flag := 0, 0;
      halted, subRoutine := false, false;
      output := [];
      new;
      assert reg[..] == [0, 0, 0, 0, 0, 0, 0, InitialSp];
    }

    /** `ram_read(MAR)`. */
    method RamRead(mar: int) returns (value: int, fault: Option<Fault>)
      requires Valid()
      ensures fault.None? <==> InBounds(mar, RamSize)
      ensures fault.None? ==> value == ReadAt(ram[..], mar)
      ensures fault.Some? ==> fault == Some(RamIndexError(mar))
    {
      if !InBounds(mar, RamSize) {
        return 0, Some(RamIndexError(mar));
      }
      value, fault := ram[Slot(mar, RamSize)], None;
    }

    /**
     * `load`, given the lines of the program file: the value of each code
     * line is stored at the next RAM address from 0, until a line fails.
     * Cells past the program keep what they held; a failing line leaves the
     * cells already stored in place.
     */
    method Load(lines: seq<string>) returns (fault: Option<Loader.LoadFault>)
      requires Valid()
      modifies ram
      ensures Valid()
      ensures fault == Loader.Scan(lines).fault
      ensures ram[..] == Loader.Scan(lines).values + old(ram[..])[|Loader.Scan(lines).values|..]
    {
      var address := 0;
      for i := 0 to |lines|
        invariant Loader.Scan(lines[..i]).fault.None?
        invariant address == |Loader.Scan(lines[..i]).values|
        invariant ram[..] == Loader.Scan(lines[..i]).values + old(ram[..])[address..]
      {
        var next;
        ghost var rest := old(ram[..])[address..];
        next, fault := StoreLine(lines, i, address, rest);
        if fault.Some? {
          Loader.ScanPrefix(lines, i + 1);
          return;
        }
        assert rest[next - address..] == old(ram[..])[next..];
        address := next;
      }
      assert lines[..|lines|] == lines;
      fault := None;
    }

    /**
     * The body of `load`'s loop for line `i`: its code text, when not blank,
     * is parsed and stored at `address`, the next free cell.
     */
    method StoreLine(lines: seq<string>, i: nat, address: nat, ghost rest: seq<int>)
      returns (next: nat, fault: Option<Loader.LoadFault>)
      requires Valid() && i < |lines|
      requires Loader.Scan(lines[..i]).fault.None? && address == |Loader.Scan(lines[..i]).values|
      requires ram[..] == Loader.Scan(lines[..i]).values + rest
      modifies ram
      ensures Valid()
      ensures var r := Loader.Scan(lines[..i + 1]);
        && fault == r.fault
        && (fault.None? ==> next == |r.values| && address <= next && ram[..] == r.values + rest[next - address..])
        && (fault.Some? ==> ram[..] == old(ram[..]) && r.values == Loader.Scan(lines[..i]).values)
    {
      ghost var prev := Loader.Scan(lines[..i]);
      var code := Loader.Code(lines[i]);
      assert Loader.Scan(lines[..i + 1]) == Loader.Feed(prev, code, i) by {
        assert lines[..i + 1][..i] == lines[..i];
      }
      next, fault := address, None;
      if |code| > 0 {
        var value := Loader.ParseBase2(code);
        if value.None? {
          return address, Some(Loader.InvalidLiteral(i));
        }
        if address == RamSize {
          return address, Some(Loader.ImageTooLarge(i));
        }
        ram[address] := value.value;
        assert ram[..] == prev.values + [value.value] + rest[1..];
        next := address + 1;
      }
    }

    /** `raw_write(MAR, MDR)`: writes the register file, not RAM. */
    method RawWrite(mar: int, mdr: int) returns (fault: Option<Fault>)
      requires Valid()
      modifies reg
      ensures Outcome(Snapshot(), fault) == Semantics.RawWrite(old(Snapshot()), mar, mdr)
    {
      if !InBounds(mar, RegCount) {
        return Some(RegIndexError(mar));
      }
      reg[Slot(mar, RegCount)] := mdr;
      fault := None;
    }

    method Alu(op: AluOp, a: int, b: int) returns (fault: Option<Fault>)
      requires Valid()
      modifies this, reg
      ensures Valid()
      ensures Outcome(Snapshot(), fault) == Semantics.Alu(old(Snapshot()), op, a, b)
    {
      match op {
        case AluNot =>
          if !InBounds(a, RegCount) { return Some(RegIndexError(a)); }
          reg[Slot(a, RegCount)] := PyInt.Invert(reg[Slot(a, RegCount)]);
        case AluMod =>
          if !InBounds(b, RegCount) { return Some(RegIndexError(b)); }
          if reg[Slot(b, RegCount)] == 0 { return Some(ZeroModulus); }
          if !InBounds(a, RegCount) { return Some(RegIndexError(a)); }
          reg[Slot(a, RegCount)] := PyInt.FloorMod(reg[Slot(a, RegCount)], reg[Slot(b, RegCount)]);
        case AluCmp =>
          if !InBounds(a, RegCount) { return Some(RegIndexError(a)); }
          if !InBounds(b, RegCount) { return Some(RegIndexError(b)); }
          flag := CompareFlag(reg[Slot(a, RegCount)], reg[Slot(b, RegCount)]);
        case AluOther(name) =>
          return Some(UnsupportedAluOperation(name));
        case _ =>
          fault := BinaryAlu(op, a, b);
          return;
      }
      fault := None;
    }

    /** The branches of `alu` that combine two registers into the first. */
    method BinaryAlu(op: AluOp, a: int, b: int) returns (fault: Option<Fault>)
      requires Valid() && IsBinary(op)
      modifies reg
      ensures Outcome(Snapshot(), fault) == Semantics.BinaryAlu(old(Snapshot()), op, a, b)
    {
      if !InBounds(a, RegCount) { return Some(RegIndexError(a)); }
      if !InBounds(b, RegCount) { return Some(RegIndexError(b)); }
      var x, y := reg[Slot(a, RegCount)], reg[Slot(b, RegCount)];
      if (op.AluShl? || op.AluShr?) && y < 0 { return Some(NegativeShift(y)); }
      reg[Slot(a, RegCount)] := Binary(op, x, y);
      fault := None;
    }

    method HaltOp(a: int, b: int) returns (fault: Option<Fault>)
      requires Valid()
      modifies this
      ensures Valid()
      ensures Outcome(Snapshot(), fault) == Semantics.HaltOp(old(Snapshot()))
    {
      halted := true;
      fault := None;
    }

    method PopOp(a: int, b: int) returns (fault: Option<Fault>)
      requires Valid()
      modifies reg
      ensures Outcome(Snapshot(), fault) == Semantics.PopOp(old(Snapshot()), a)
    {
      var value;
      value, fault := RamRead(reg[SP]);
      if fault.Some? { return; }
      if !InBounds(a, RegCount) { return Some(RegIndexError(a)); }
      reg[Slot(a, RegCount)] := value;
      reg[SP] := reg[SP] + 1;
    }

    method PushOp(a: int, b: int) returns (fault: Option<Fault>)
      requires Valid()
      modifies this, reg
      ensures Valid()
      ensures Outcome(Snapshot(), fault) == Semantics.PushOp(old(Snapshot()), a)
    {
      reg[SP] := reg[SP] - 1;
      if !InBounds(a, RegCount) { return Some(RegIndexError(a)); }
      var value := reg[Slot(a, RegCount)];
      var address := reg[SP];
      fault := RawWrite(address, value);
      if fault.Some? { return; }
      subRoutine := false;
    }

    method PrnOp(a: int, b: int) returns (fault: Option<Fault>)
      requires Valid()
      modifies this
      ensures Valid()
      ensures Outcome(Snapshot(), fault) == Semantics.PrnOp(old(Snapshot()), a)
    {
      if !InBounds(a, RegCount) { return Some(RegIndexError(a)); }
      output := output + [reg[Slot(a, RegCount)]];
      subRoutine := false;
      fault := None;
    }

    method LdiOp(a: int, b: int) returns (fault: Option<Fault>)
      requires Valid()
      modifies this, reg
      ensures Valid()
      ensures Outcome(Snapshot(), fault) == Semantics.LdiOp(old(Snapshot()), a, b)
    {
      if !InBounds(a, RegCount) { return Some(RegIndexError(a)); }
      reg[Slot(a, RegCount)] := b;
      subRoutine := false;
      fault := None;
    }

    /** add_op, mul_op, cmp_op, and_op, or_op and xor_op. */
    method AluHandler(op: AluOp, a: int, b: int) returns (fault: Option<Fault>)
      requires Valid()
      modifies this, reg
      ensures Valid()
      ensures Outcome(Snapshot(), fault) == Semantics.AluHandler(old(Snapshot()), op, a, b)
    {
      fault := Alu(op, a, b);
      if fault.Some? { return; }
      subRoutine := false;
    }

    method CallOp(a: int, b: int) returns (fault: Option<Fault>)
      requires Valid()
      modifies this, reg
      ensures Valid()
      ensures Outcome(Snapshot(), fault) == Semantics.CallOp(old(Snapshot()), a)
    {
      reg[SP] := reg[SP] - 1;
      fault := RawWrite(reg[SP], pc + 2);
      if fault.Some? { return; }
      if !InBounds(a, RegCount) { return Some(RegIndexError(a)); }
      pc := reg[Slot(a, RegCount)];
      subRoutine := true;
    }

    method RetOp(a: int, b: int) returns (fault: Option<Fault>)
      requires Valid()
      modifies this, reg
      ensures Valid()
      ensures Outcome(Snapshot(), fault) == Semantics.RetOp(old(Snapshot()))
    {
      var target;
      target, fault := RamRead(reg[SP]);
      if fault.Some? { return; }
      pc := target;
      reg[SP] := reg[SP] + 1;
      subRoutine := true;
    }

    method JmpOp(a: int, b: int) returns (fault: Option<Fault>)
      requires Valid()
      modifies this
      ensures Valid()
      ensures Outcome(Snapshot(), fault) == Semantics.JmpOp(old(Snapshot()), a)
    {
      if !InBounds(a, RegCount) { return Some(RegIndexError(a)); }
      pc := reg[Slot(a, RegCount)];
      subRoutine := true;
      fault := None;
    }

    method JeqOp(a: int, b: int) returns (fault: Option<Fault>)
      requires Valid()
      modifies this
      ensures Valid()
      ensures Outcome(Snapshot(), fault) == Semantics.JeqOp(old(Snapshot()), a)
    {
      if JeqTakes(flag) {
        if !InBounds(a, RegCount) { return Some(RegIndexError(a)); }
        pc := reg[Slot(a, RegCount)];
        subRoutine := true;
      } else {
        subRoutine := false;
      }
      fault := None;
    }

    method JneOp(a: int, b: int) returns (fault: Option<Fault>)
      requires Valid()
      modifies this
      ensures Valid()
      ensures Outcome(Snapshot(), fault) == Semantics.JneOp(old(Snapshot()), a)
    {
      if JneTakes(flag) {
        if !InBounds(a, RegCount) { return Some(RegIndexError(a)); }
        pc := reg[Slot(a, RegCount)];
        subRoutine := true;
      } else {
        subRoutine := false;
      }
      fault := None;
    }

    /** `self.branchTable[IR](operand_a, operand_b)`. */
    method Dispatch(handler: Handler, operandA: int, operandB: int) returns (fault: Option<Fault>)
      requires Valid()
      modifies this, reg
      ensures Valid()
      ensures Outcome(Snapshot(), fault) == Semantics.Dispatch(old(Snapshot()), handler, operandA, operandB)
    {
      match handler {
        case Halt => fault := HaltOp(operandA, operandB);
        case Ldi => fault := LdiOp(operandA, operandB);
        case Prn => fault := PrnOp(operandA, operandB);
        case Add => fault := AluHandler(AluAdd, operandA, operandB);
        case Mul => fault := AluHandler(AluMul, operandA, operandB);
        case Push => fault := PushOp(operandA, operandB);
        case Pop => fault := PopOp(operandA, operandB);
        case Cmp => fault := AluHandler(AluCmp, operandA, operandB);
        case Jeq => fault := JeqOp(operandA, operandB);
        case Jne => fault := JneOp(operandA, operandB);
        case Jmp => fault := JmpOp(operandA, operandB);
        case Call => fault := CallOp(operandA, operandB);
        case Ret => fault := RetOp(operandA, operandB);
        case And => fault := AluHandler(AluAnd, operandA, operandB);
        case Or => fault := AluHandler(AluOr, operandA, operandB);
        case Xor => fault := AluHandler(AluXor, operandA, operandB);
        case Not => fault := Some(WrongArity(NOT));
        case Shl => fault := Some(WrongArity(SHL));
        case Shr => fault := Some(WrongArity(SHR));
        case Mod => fault := Some(WrongArity(MOD));
        case Int => fault := Some(WrongArity(INT));
        case Iret => fault := Some(WrongArity(IRET));
      }
    }

    /** One iteration of `run`'s loop. */
    method Step() returns (fault: Option<Fault>)
      requires Valid()
      modifies this, reg
      ensures Valid()
      ensures Outcome(Snapshot(), fault) == Cycle(old(Snapshot()))
    {
      if !InBounds(pc, RamSize) { return Some(RamIndexError(pc)); }
      var ir := ram[Slot(pc, RamSize)];
      var operands := OperandCount(ir);
      var operandA, operandB;
      operandA, fault := RamRead(pc + 1);
      if fault.Some? { return; }
      operandB, fault := RamRead(pc + 2);
      if fault.Some? { return; }
      if ir !in BranchTable {
        return Some(InvalidInstruction(pc, ir));
      }
      fault := Dispatch(BranchTable[ir], operandA, operandB);
      if fault.None? && !subRoutine {
        pc := pc + operands + 1;
      }
    }

    /**
     * `run`: execute until HALTED is set or a fault is raised, here cut off
     * after `fuel` iterations.
     */
    method Run(fuel: nat) returns (outcome: RunOutcome)
      requires Valid()
      modifies this, reg
      ensures Valid()
      ensures RunResult(Snapshot(), outcome) == Semantics.Run(old(Snapshot()), fuel)
    {
      var left := fuel;
      ghost var start, state := Snapshot(), Snapshot();
      while !halted
        invariant Valid() && state == Snapshot()
        invariant Semantics.Run(state, left) == Semantics.Run(start, fuel)
        decreases left
      {
        if left == 0 {
          return OutOfFuel;
        }
        var rest := left - 1;
        var fault := Step();
        RunOnce(state, left, Outcome(Snapshot(), fault), rest);
        if fault.Some? {
          return Faulted(fault.value);
        }
        left, state := rest, Snapshot();
      }
      return Halted;
    }
  }
}
