/**
 * JNE as the opcode table's comment describes it: jump when the E (equal)
 * bit of the flag is clear. As written, `jne_op` jumps only on a flag of
 * exactly 0b010 or 0b100 (see `Semantics.JneOp`), so before any CMP, with the
 * flag still 0, it falls through. `JneFallsThroughOnZeroFlag` shows the case.
 * Everything else in the model uses the handler as written.
 */
module ClearEqualJump {
  import opened PyInt
  import opened Semantics
  import opened Properties

  /** Bit 0 of the flag, the E bit that CMP sets on equality, is clear. */
  predicate EqualBitClear(flag: int) { !LowBit(flag) }

  /** JNE jumping to register a whenever the E bit is clear. */
  function JneOnClearEqual(m: Machine, a: int): (r: Outcome)
    requires Shaped(m)
    ensures !EqualBitClear(m.flag) ==> r == Ok(m.(subRoutine := false))
    ensures EqualBitClear(m.flag) && InBounds(a, RegCount) ==>
      r == Ok(m.(pc := ReadAt(m.reg, a), subRoutine := true))
    ensures EqualBitClear(m.flag) && !InBounds(a, RegCount) ==> r == Fail(m, RegIndexError(a))
  {
    if EqualBitClear(m.flag) then JmpOp(m, a) else Ok(m.(subRoutine := false))
  }

  /**
   * As written: on a flag of 0, the value it has before any CMP, the E bit
   * is clear, yet `jne_op` does not jump.
   */
  lemma JneFallsThroughOnZeroFlag(m: Machine, a: int)
    requires Shaped(m) && m.flag == 0 && InBounds(a, RegCount)
    ensures EqualBitClear(m.flag)
    ensures JneOp(m, a) == Ok(m.(subRoutine := false))
    ensures JneOnClearEqual(m, a) == Ok(m.(pc := ReadAt(m.reg, a), subRoutine := true))
  {
  }

  /**
   * On every flag value a run can produce, exactly one of JEQ and the
   * corrected JNE jumps; after a CMP it agrees with the code's JNE.
   */
  lemma JeqOrClearEqualJump(f: int)
    requires FlagOk(f)
    ensures EqualBitClear(f) <==> !JeqTakes(f)
    ensures f != 0 ==> (EqualBitClear(f) <==> JneTakes(f))
  {
  }

  /** After `CMP x, y` the corrected JNE jumps exactly when x != y. */
  lemma ClearEqualFollowsCompare(x: int, y: int)
    ensures EqualBitClear(CompareFlag(x, y)) <==> x != y
  {
  }
}
