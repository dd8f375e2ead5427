/**
 * The `Branch` value type: program address, target, opcode and outcome of
 * one executed branch. The opcode packs a 2-bit base type with a
 * conditional bit and an indirect bit.
 */
module Branches {

  /** Number of possible opcodes. */
  const NUMBER: bv32 := 0x10
  /** Bitmask of the base type. */
  const TYPE: bv32 := 0x3
  /** Bit of conditional branches. */
  const CND: bv32 := 0x4
  /** Bit of indirect branches. */
  const IND: bv32 := 0x8
  const JMP: bv32 := 0x0
  const RET: bv32 := 0x1
  const CALL: bv32 := 0x2

  /** `Branch(ip, target, opcode, outcome)`; the accessors are the fields. */
  datatype Branch = Branch(ip: bv64, target: bv64, opcode: bv32, outcome: bv8)

  /** `isTaken()`: the outcome byte converted to `bool`. */
  predicate IsTaken(b: Branch)
  {
    b.outcome != 0
  }

  /** `isConditional()`. */
  predicate IsConditional(b: Branch)
  {
    b.opcode & CND != 0
  }

  /** `isIndirect()`. */
  predicate IsIndirect(b: Branch)
  {
    b.opcode & IND != 0
  }

  /** `type()`: the base type bits of the opcode. */
  function Type(b: Branch): (t: bv32)
    ensures t == JMP || t == RET || t == CALL || t == TYPE
    ensures t & (CND | IND) == 0
  {
    b.opcode & TYPE
  }

  /** The three fields are disjoint and together cover the `NUMBER` opcodes. */
  lemma OpcodeFieldsPartition()
    ensures TYPE & CND == 0 && TYPE & IND == 0 && CND & IND == 0
    ensures TYPE | CND | IND == NUMBER - 1
  {
  }

  /** An opcode below `NUMBER` is exactly its type, conditional and indirect parts. */
  lemma OpcodeDecomposes(b: Branch)
    requires b.opcode < NUMBER
    ensures b.opcode ==
      Type(b) | (if IsConditional(b) then CND else 0) | (if IsIndirect(b) then IND else 0)
  {
  }
}
