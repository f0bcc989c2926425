/** The compiler's SSA IR: branches pass arguments to block parameters, and
    constants are operands. Ids are one-based, zero meaning "none"; block N of
    the table has id N + 1. */
module Ir {

  datatype OperandKind = OpNone | OpValue | OpIconst | OpFconst | OpSymbol | OpUndef

  // a is the value id, the constant's bits or the addend; b the high half of a
  // wide float constant or an ABI annotation.
  datatype Operand = Operand(kind: OperandKind, ty: nat, argflags: nat, sym: nat, a: nat, b: nat)

  datatype Edge = Edge(target: nat, args: seq<Operand>, caseVal: int)

  // addr is the instruction's identity, which rewriting it in place keeps.
  datatype Inst = Inst(
    addr: nat, op: nat, ty: nat, subop: nat, flags: nat, result: nat, callee: nat, ops: seq<Operand>, edges: seq<Edge>)

  datatype Block = Block(name: string, params: seq<nat>, insts: seq<Inst>)

  datatype DefKind = DefNone | DefFparam | DefBparam | DefInst

  // Where a value is defined; the position is 0 for parameters.
  datatype ValInfo = ValInfo(ty: nat, kind: DefKind, block: nat, pos: nat)

  datatype Func = Func(paramVals: seq<nat>, blocks: seq<Block>, vals: seq<ValInfo>)

  const TYPE_I32: nat := 2
  const TYPE_F128: nat := 7
  const TYPE_V16I8: nat := 9
  const TYPE_V2F64: nat := 14

  const IR_AND: nat := 7
  const IR_OR: nat := 8
  const IR_ICMP: nat := 13
  const IR_FCMP: nat := 14
  const IR_CALL: nat := 37
  const IR_RET: nat := 52
  const IR_UNREACHABLE: nat := 56
  const IR_VA_ARG: nat := 57

  const FLAG_VOLATILE: nat := 1
  const FLAG_SEQ_CST: nat := 2

  const ID_LIMIT: nat := 0x1_0000_0000
  const NONE: nat := 0xFFFF_FFFF

  predicate IsTerminator(op: nat) {
    IR_RET <= op <= IR_UNREACHABLE
  }
}
