/** Instruction words of the runtime: a 32-bit word whose high byte is the
    opcode and whose low 24 bits are the operand. */
module RuntimeWord {

  const OPCODE_MASK: bv32 := 0xFF00_0000
  const OPERAND_MASK: bv32 := 0x00FF_FFFF
  const OPCODE_RANGE_START: bv32 := 0x0100_0000
  const OPCODE_RANGE_END: bv32 := 0xFF00_0000
  const OPERAND_RANGE_START: bv32 := 0x0
  const OPERAND_RANGE_END: bv32 := 0xFF_FFFF
  const MAX_INSTRUCTION: bv32 := 0xFFFF_FFFF

  /** The opcode bits of an instruction. */
  function Opcode(i: bv32): (op: bv32)
    ensures op & OPERAND_MASK == 0
  {
    i & OPCODE_MASK
  }

  /** The operand bits of an instruction. */
  function Operand(i: bv32): (x: bv32)
    ensures x <= OPERAND_RANGE_END
  {
    i & OPERAND_MASK
  }

  /** The two masks share no bit and together cover every bit of the
      largest instruction. */
  lemma MasksPartitionWord()
    ensures OPCODE_MASK & OPERAND_MASK == 0
    ensures OPCODE_MASK | OPERAND_MASK == MAX_INSTRUCTION
  {
  }

  /** Splitting an instruction with the two masks and joining the parts
      gives the instruction back. */
  lemma SplitJoin(i: bv32)
    ensures Opcode(i) | Operand(i) == i
  {
  }

  /** The operand range is exactly the operand mask; the opcode range
      starts just above it, at the lowest opcode bit, and ends at the
      opcode mask. */
  lemma RangesMatchMasks()
    ensures OPERAND_RANGE_START == 0 && OPERAND_RANGE_END == OPERAND_MASK
    ensures OPCODE_RANGE_START == OPERAND_RANGE_END + 1
    ensures OPCODE_RANGE_START & OPCODE_MASK == OPCODE_RANGE_START
    ensures OPCODE_RANGE_END == OPCODE_MASK
  {
  }

  /** Every non-zero opcode lies in the opcode range. */
  lemma OpcodeInRange(i: bv32)
    requires Opcode(i) != 0
    ensures OPCODE_RANGE_START <= Opcode(i) <= OPCODE_RANGE_END
  {
  }
}
