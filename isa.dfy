/**
 * The instruction set: the opcode byte of every instruction the emulator
 * names (cpu.py:5-60), the dispatch table that maps the implemented ones to a
 * handler (cpu.py:81-104), and the operand-count field of an opcode.
 */
module Isa {
  import PyInt

  const ADD := 0xA0
  const AND := 0xA8
  const CALL := 0x50
  const CMP := 0xA7
  const DEC := 0x66
  const DIV := 0xA3
  const HLT := 0x01
  const INC := 0x65
  const INT := 0x52
  const IRET := 0x13
  const JEQ := 0x55
  const JGE := 0x5A
  const JGT := 0x57
  const JLE := 0x59
  const JLT := 0x58
  const JMP := 0x54
  const JNE := 0x56
  const LD := 0x83
  const LDI := 0x82
  const MOD := 0xA4
  const MUL := 0xA2
  const NOP := 0x00
  const NOT := 0x69
  const OR := 0xAA
  const POP := 0x46
  const PRA := 0x48
  const PRN := 0x47
  const PUSH := 0x45
  const RET := 0x11
  const SHL := 0xAC
  const SHR := 0xAD
  const ST := 0x84
  const SUB := 0xA1
  const XOR := 0xAB

  /** The handlers the dispatch table can reach, one per table entry. */
  datatype Handler =
    | Halt | Ldi | Prn | Add | Mul | Push | Pop | Cmp
    | Jeq | Jne | Jmp | Call | Ret | And | Or | Xor
    | Not | Shl | Shr | Mod | Int | Iret

  /** The dispatch table `branchTable`: opcode byte to handler. */
  const BranchTable: map<int, Handler> := map[
    HLT := Halt, LDI := Ldi, PRN := Prn, ADD := Add, MUL := Mul,
    PUSH := Push, POP := Pop, CMP := Cmp, JEQ := Jeq, JNE := Jne,
    JMP := Jmp, CALL := Call, RET := Ret, AND := And, OR := Or,
    XOR := Xor, NOT := Not, SHL := Shl, SHR := Shr, MOD := Mod,
    INT := Int, IRET := Iret
  ]

  /** The opcode under which each handler is registered. */
  function OpcodeOf(h: Handler): int {
    match h
    case Halt => HLT
    case Ldi => LDI
    case Prn => PRN
    case Add => ADD
    case Mul => MUL
    case Push => PUSH
    case Pop => POP
    case Cmp => CMP
    case Jeq => JEQ
    case Jne => JNE
    case Jmp => JMP
    case Call => CALL
    case Ret => RET
    case And => AND
    case Or => OR
    case Xor => XOR
    case Not => NOT
    case Shl => SHL
    case Shr => SHR
    case Mod => MOD
    case Int => INT
    case Iret => IRET
  }

  /**
   * The handlers the run loop calls with two operands although they are
   * declared with fewer parameters, so that calling them raises a TypeError.
   */
  predicate MisDeclared(h: Handler) {
    h.Not? || h.Shl? || h.Shr? || h.Mod? || h.Int? || h.Iret?
  }

  /** `IR >> 6 & 3`: the number of operand bytes that follow the opcode. */
  function OperandCount(ir: int): (n: int)
    ensures n == (ir / 64) % 4
  {
    var n := PyInt.Bitwise(PyInt.AndBits, PyInt.ShiftRight(ir, 6), 3);
    assert n == (ir / 64) % 4 by {
      assert PyInt.Pow2(6) == 64;
      PyInt.AndThree(ir / 64);
    }
    n
  }

  // ---------------------------------------------------------------------
  // Properties

  /** The table and OpcodeOf are inverse: every handler sits under its own opcode and nowhere else. */
  lemma BranchTableInverse(ir: int)
    ensures forall h: Handler :: OpcodeOf(h) in BranchTable && BranchTable[OpcodeOf(h)] == h
    ensures ir in BranchTable ==> OpcodeOf(BranchTable[ir]) == ir
  {
  }

  /** Opcodes that cpu.py names but leaves out of the table. */
  lemma UnlistedOpcodes()
    ensures SUB !in BranchTable && DIV !in BranchTable && LD !in BranchTable
    ensures ST !in BranchTable && INC !in BranchTable && DEC !in BranchTable
    ensures NOP !in BranchTable && PRA !in BranchTable
    ensures JGT !in BranchTable && JGE !in BranchTable && JLT !in BranchTable && JLE !in BranchTable
  {
  }

  /** Each table entry's operand count, read off its opcode. */
  lemma TableOperandCounts(h: Handler)
    ensures OperandCount(OpcodeOf(h)) ==
      if h.Halt? || h.Ret? || h.Iret? then 0
      else if h.Ldi? || h.Add? || h.Mul? || h.Cmp? || h.And? || h.Or? || h.Xor?
           || h.Shl? || h.Shr? || h.Mod? then 2
      else 1
  {
  }
}
