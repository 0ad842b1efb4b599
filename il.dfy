/**
 * The slice of CIL that the two transpilers look at: an instruction is an
 * opcode together with an operand. Only the opcodes the transpilers test for
 * are spelled out; every other opcode is an `OtherOpcode`.
 */
module Il {

  datatype Opcode =
    | Ldc_I4
    | Ldloc_1
    | Stloc_2
    | Call
    | OtherOpcode(name: string)

  /** An instruction's operand: a boxed 32-bit int, a method reference, nothing, or anything else. */
  datatype Operand =
    | IntOp(value: int)
    | MethodOp(target: string)
    | NoOperand
    | OtherOp(description: string)

  datatype Instruction = Instruction(opcode: Opcode, operand: Operand)
}
