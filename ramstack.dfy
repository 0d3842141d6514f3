/**
 * The stack as cpu.py evidently intends it: PUSH and CALL store into RAM at
 * the decremented stack pointer, which is where POP and RET read from. As
 * written, `raw_write` stores into the register file instead (see
 * `Semantics.PushOp`); `PushPopLosesValue` shows the value that is then lost.
 * Everything else in the model uses the handlers as written.
 */
module RamStack {
  import opened Semantics

  /** PUSH with the store going to `ram[reg[SP]]`; the decrement still happens first. */
  function PushToRam(m: Machine, a: int): (r: Outcome)
    requires Shaped(m)
    ensures Shaped(r.state) && r.state.pc == m.pc && r.state.output == m.output
    ensures r.state.reg == m.reg[SP := m.reg[SP] - 1]
    ensures r.fault.None? <==> InBounds(a, RegCount) && InBounds(m.reg[SP] - 1, RamSize)
    ensures r.fault.None? ==> ReadAt(r.state.ram, m.reg[SP] - 1) == ReadAt(m.reg[SP := m.reg[SP] - 1], a)
    ensures var lowered := m.reg[SP := m.reg[SP] - 1];
      && (r.fault.Some? ==> r.state == m.(reg := lowered))
      && (r.fault.None? ==>
            r.state == m.(reg := lowered, ram := WriteAt(m.ram, m.reg[SP] - 1, ReadAt(lowered, a)), subRoutine := false))
  {
    var m1 := m.(reg := m.reg[SP := m.reg[SP] - 1]);
    var sp := m1.reg[SP];
    if !InBounds(a, RegCount) then Fail(m1, RegIndexError(a))
    else if !InBounds(sp, RamSize) then Fail(m1, RamIndexError(sp))
    else Ok(m1.(ram := WriteAt(m1.ram, sp, ReadAt(m1.reg, a)), subRoutine := false))
  }

  /** CALL with the return address stored at `ram[reg[SP]]`. */
  function CallToRam(m: Machine, a: int): (r: Outcome)
    requires Shaped(m)
    ensures Shaped(r.state) && r.state.output == m.output
    ensures r.state.reg == m.reg[SP := m.reg[SP] - 1]
    ensures r.fault.None? <==> InBounds(m.reg[SP] - 1, RamSize) && InBounds(a, RegCount)
    ensures r.fault.None? ==>
      && ReadAt(r.state.ram, m.reg[SP] - 1) == m.pc + 2
      && r.state.pc == ReadAt(r.state.reg, a)
      && r.state.subRoutine
    ensures var sp := m.reg[SP] - 1;
      var lowered := m.reg[SP := sp];
      var saved := if InBounds(sp, RamSize) then WriteAt(m.ram, sp, m.pc + 2) else m.ram;
      && (!InBounds(sp, RamSize) ==> r == Fail(m.(reg := lowered), RamIndexError(sp)))
      && (InBounds(sp, RamSize) && !InBounds(a, RegCount) ==> r == Fail(m.(reg := lowered, ram := saved), RegIndexError(a)))
      && (r.fault.None? ==> r.state == m.(reg := lowered, ram := saved, pc := ReadAt(lowered, a), subRoutine := true))
  {
    var m1 := m.(reg := m.reg[SP := m.reg[SP] - 1]);
    var sp := m1.reg[SP];
    if !InBounds(sp, RamSize) then Fail(m1, RamIndexError(sp))
    else
      var w := m1.(ram := WriteAt(m1.ram, sp, m.pc + 2));
      if !InBounds(a, RegCount) then Fail(w, RegIndexError(a))
      else Ok(w.(pc := ReadAt(w.reg, a), subRoutine := true))
  }

  /**
   * PUSH a then POP a restores every register, the stack pointer included,
   * even when a names the stack pointer itself.
   */
  lemma PushPopRoundTrip(m: Machine, a: int)
    requires Shaped(m) && InBounds(a, RegCount) && InBounds(m.reg[SP] - 1, RamSize)
    ensures PushToRam(m, a).fault.None?
    ensures var p := PushToRam(m, a).state;
      PopOp(p, a).fault.None? && PopOp(p, a).state.reg == m.reg && PopOp(p, a).state.pc == m.pc
  {
    var p := PushToRam(m, a).state;
    var sp := m.reg[SP] - 1;
    var q := PopOp(p, a).state;
    if Slot(a, RegCount) == SP {
      assert ReadAt(p.ram, sp) == sp;
      assert q.reg == m.reg;
    } else {
      assert ReadAt(p.ram, sp) == ReadAt(m.reg, a);
      assert q.reg == m.reg;
    }
  }

  /** PUSH a then POP b copies register a into register b when neither is the stack pointer. */
  lemma PushPopMoves(m: Machine, a: int, b: int)
    requires Shaped(m) && InBounds(a, RegCount) && InBounds(b, RegCount) && InBounds(m.reg[SP] - 1, RamSize)
    requires Slot(a, RegCount) != SP && Slot(b, RegCount) != SP
    ensures var p := PushToRam(m, a).state;
      PopOp(p, b).fault.None? && PopOp(p, b).state.reg == WriteAt(m.reg, b, ReadAt(m.reg, a))
  {
    var p := PushToRam(m, a).state;
    assert ReadAt(p.ram, m.reg[SP] - 1) == ReadAt(m.reg, a);
  }

  /**
   * After CALL, a subroutine body that leaves the stack pointer and RAM as it
   * found them returns, through RET, to the instruction after the CALL with
   * the stack pointer back where it was before the CALL.
   */
  lemma CallRetResumes(m: Machine, a: int, k: Machine)
    requires Shaped(m) && InBounds(a, RegCount) && InBounds(m.reg[SP] - 1, RamSize)
    requires Shaped(k) && k.reg[SP] == m.reg[SP] - 1 && k.ram == CallToRam(m, a).state.ram
    ensures RetOp(k) == Ok(k.(pc := m.pc + 2, reg := k.reg[SP := m.reg[SP]], subRoutine := true))
  {
  }

  /**
   * As written: with the stack pointer at 5 and 42 in R0, `PUSH R0; POP R0`
   * leaves R0 holding 0, because PUSH wrote 42 into R4 and POP read RAM cell 4.
   */
  lemma PushPopLosesValue()
    ensures var m := Initial().(reg := Initial().reg[0 := 42][SP := 5]);
      var p := PushOp(m, 0);
      && p.fault.None?
      && p.state.reg[4] == 42
      && PopOp(p.state, 0).fault.None?
      && PopOp(p.state, 0).state.reg[0] == 0
  {
    var m := Initial().(reg := Initial().reg[0 := 42][SP := 5]);
    assert m.ram[4] == 0;
  }
}
