/** The deterministic printer of the textual IR, as the tokens it writes. Every
    function takes the tokens that follow, so a printed function is read off
    from the left exactly as the parser reads it. */
module IrPrint {
  import opened Ir
  import opened IrNames
  import opened IrTokens
  import opened IrMarks
  import opened Symbols
  import Renumbering
  import Verifier

  const OP_FADD: nat := 15
  const OP_FDIV: nat := 18
  const OP_FNEG: nat := 19
  const OP_FABS: nat := 20
  const OP_SEXT: nat := 21
  const OP_BITCAST: nat := 30
  const OP_ALLOCA: nat := 31
  const OP_LOAD: nat := 32
  const OP_STORE: nat := 33
  const OP_PTRADD: nat := 34
  const OP_MEMCPY: nat := 35
  const OP_MEMSET: nat := 36
  const OP_CALL: nat := 37
  const OP_SELECT: nat := 38
  const OP_VSPLAT: nat := 39
  const OP_VEXTRACT: nat := 40
  const OP_VREDUCE_ADD: nat := 41
  const OP_VREDUCE_XOR: nat := 45
  const OP_VA_START: nat := 46
  const OP_STACKSAVE: nat := 47
  const OP_STACKRESTORE: nat := 48
  const OP_ATOMICRMW: nat := 49
  const OP_CMPXCHG: nat := 50
  const OP_BR: nat := 53
  const OP_CONDBR: nat := 54
  const OP_SWITCH: nat := 55

  const TYPE_I64: nat := 3
  const TYPE_F32: nat := 4
  const TYPE_F64: nat := 5
  const TYPE_F80: nat := 6
  const TYPE_PTR: nat := 8
  const TYPE_VOID: nat := 15
  const ETYPE_CHAR: nat := 1

  const CALL_INTERNAL: nat := 0
  const CALL_EXTERNAL: nat := 1
  const CALL_INDIRECT: nat := 2

  const FLAG_VARIADIC: nat := 4
  const FLAG_UNPROTOTYPED: nat := 1
  const FLAG_NSW: nat := 8
  const FLAG_BOUNDS: nat := 16
  const FLAG_NORETURN: nat := 32
  const FLAG_SELF_INIT: nat := 64
  const FLAG_FLOW: nat := 128

  const ARG_ANON: nat := 1
  const ARG_SEXT: nat := 2
  const ARG_ZEXT: nat := 4
  const ARG_ONSTACK: nat := 8

  predicate Has(flags: nat, bit: nat)
    requires bit > 0
  {
    flags / bit % 2 == 1
  }

  predicate IsBinary(op: nat) {
    op <= 12 || OP_FADD <= op <= OP_FDIV
  }

  predicate IsCast(op: nat) {
    OP_SEXT <= op <= OP_BITCAST && op != OP_FNEG && op != OP_FABS
  }

  predicate IsReduce(op: nat) {
    OP_VREDUCE_ADD <= op <= OP_VREDUCE_XOR
  }

  // The module's tables, as far as instructions refer to them.
  datatype ModuleNames = ModuleNames(syms: seq<string>, attrs: seq<SymAttrs>, funcs: seq<string>)

  // --- argument annotations, packed into one word ---------------------------------------

  const KIND_HFA: nat := 7

  function ArgKind(b: nat): nat { b / 0x1_0000_0000 % 8 }

  function ArgSize(b: nat): nat { b % 0x1_0000_0000 }

  function ArgLeaves(b: nat): nat { b / 0x8_0000_0000 % 8 }

  function StackAlign(b: nat): nat { b / 0x40_0000_0000 % 0x40_0000 * 8 }

  predicate EvenGpr(b: nat) { b / 0x2000_0000_0000_0000 % 2 == 1 }

  function KindName(kind: nat): string {
    match kind
    case 1 => "byval"
    case 2 => "sret"
    case 3 => "pair_ii"
    case 4 => "pair_is"
    case 5 => "pair_si"
    case 6 => "pair_ss"
    case _ => "hfa"
  }

  // --- pieces --------------------------------------------------------------------------------

  function NameAt(names: seq<string>, i: nat): string {
    if i < |names| then names[i] else "?"
  }

  // Values are numbered from zero in document order.
  function ValTok(f: Func, id: nat): Tok {
    var n := Renumbering.NewId(Renumbering.Defs(f), id);
    if id == 0 || id > |f.vals| || n == 0 then Pident("bad" + Decimal(id)) else Pident(Decimal(n - 1))
  }

  function Atom(m: ModuleNames, f: Func, o: Operand, rest: seq<Tok>): seq<Tok> {
    match o.kind
    case OpValue => [ValTok(f, Verifier.UsedId(o))] + rest
    case OpIconst => [IntTok(o.a)] + rest
    case OpFconst =>
      if o.ty == TYPE_F32 then [HexTok(o.a % 0x1_0000_0000, 8)] + rest
      else if o.ty == TYPE_F64 then [HexTok(o.a, 16)] + rest
      else [HexTok(o.b, if o.ty == TYPE_F80 then 4 else 16), Colon, HexTok(o.a, 16)] + rest
    case OpSymbol =>
      if o.a != 0 then [SymTok(NameAt(m.syms, o.sym)), IntTok(o.a)] + rest else [SymTok(NameAt(m.syms, o.sym))] + rest
    case OpUndef => [Ident("undef")] + rest
    case OpNone => [Ident("?")] + rest
  }

  function Typed(m: ModuleNames, f: Func, o: Operand, rest: seq<Tok>): seq<Tok> {
    [Ident(TypeName(o.ty))] + Atom(m, f, o, rest)
  }

  // Only values and symbols carry an annotation; b is part of a float constant.
  function Annotation(o: Operand): nat {
    if o.kind == OpValue || o.kind == OpSymbol then o.b else 0
  }

  function KindToks(b: nat, rest: seq<Tok>): seq<Tok> {
    var kind := ArgKind(b);
    if kind == 0 then rest
    else if kind == KIND_HFA then [Ident("hfa"), LP, IntTok(ArgSize(b)), Comma, IntTok(ArgLeaves(b)), RP] + rest
    else [Ident(KindName(kind)), LP, IntTok(ArgSize(b)), RP] + rest
  }

  function AlignToks(b: nat, rest: seq<Tok>): seq<Tok> {
    var align := StackAlign(b);
    if align == 16 then [Ident("stackalign16")] + rest
    else if align != 0 then [Ident("stackalign"), LP, IntTok(align), RP] + rest
    else rest
  }

  function ArgMarks(o: Operand, rest: seq<Tok>): seq<Tok> {
    var b := Annotation(o);
    KindToks(b,
      Word(Has(o.argflags, ARG_ANON), "anon",
        Word(Has(o.argflags, ARG_SEXT), "sext",
          Word(Has(o.argflags, ARG_ZEXT), "zext",
            Word(Has(o.argflags, ARG_ONSTACK), "onstack",
              AlignToks(b, Word(EvenGpr(b), "even", rest)))))))
  }

  function CallArg(m: ModuleNames, f: Func, o: Operand, rest: seq<Tok>): seq<Tok> {
    Typed(m, f, o, ArgMarks(o, rest))
  }

  // Comma-separated, up to the closing parenthesis.
  function TypedList(m: ModuleNames, f: Func, os: seq<Operand>, rest: seq<Tok>): seq<Tok> {
    if os == [] then [RP] + rest
    else if |os| == 1 then Typed(m, f, os[0], [RP] + rest)
    else Typed(m, f, os[0], [Comma] + TypedList(m, f, os[1..], rest))
  }

  function CallArgs(m: ModuleNames, f: Func, os: seq<Operand>, rest: seq<Tok>): seq<Tok> {
    if os == [] then [RP] + rest
    else if |os| == 1 then CallArg(m, f, os[0], [RP] + rest)
    else CallArg(m, f, os[0], [Comma] + CallArgs(m, f, os[1..], rest))
  }

  function BlockName(f: Func, target: nat): string {
    if 0 < target <= |f.blocks| then f.blocks[target - 1].name else "?"
  }

  function EdgeToks(m: ModuleNames, f: Func, e: Edge, rest: seq<Tok>): seq<Tok> {
    [Ident(BlockName(f, e.target)), LP] + TypedList(m, f, e.args, rest)
  }

  function AlignClause(align: nat, rest: seq<Tok>): seq<Tok> {
    [Comma, Ident("align"), IntTok(align)] + rest
  }

  function MemFlags(flags: nat, rest: seq<Tok>): seq<Tok> {
    CommaWord(Has(flags, FLAG_VOLATILE), "volatile",
      CommaWord(Has(flags, FLAG_SEQ_CST), "seq_cst",
        CommaWord(Has(flags, FLAG_SELF_INIT), "self_init", rest)))
  }

  function EtypeClause(etype: nat, rest: seq<Tok>): seq<Tok> {
    if etype == 0 then rest else [Comma, Ident("etype"), Ident(EtypeName(etype))] + rest
  }

  function Cases(m: ModuleNames, f: Func, es: seq<Edge>, rest: seq<Tok>): seq<Tok> {
    if es == [] then rest
    else [Comma, IntTok(Bits(es[0].caseVal)), Colon] + EdgeToks(m, f, es[0], Cases(m, f, es[1..], rest))
  }

  // --- instructions ------------------------------------------------------------------------------

  // As many operands and edges as the opcode's printed form shows.
  predicate Shaped(inst: Inst) {
    var n, e := |inst.ops|, |inst.edges|;
    if inst.op == OP_BR then n == 0 && e == 1
    else if inst.op == OP_CONDBR then n == 1 && e == 2
    else if inst.op == OP_SWITCH then n == 1 && e >= 1
    else if e != 0 then false
    else if IsBinary(inst.op) || inst.op == IR_ICMP || inst.op == IR_FCMP then n == 2
    else if inst.op == OP_STORE || inst.op == OP_PTRADD || inst.op == OP_ATOMICRMW then n == 2
    else if inst.op == OP_MEMCPY || inst.op == OP_MEMSET || inst.op == OP_SELECT || inst.op == OP_CMPXCHG then n == 3
    else if inst.op == OP_CALL then inst.subop <= CALL_INDIRECT && (inst.subop == CALL_INDIRECT ==> n >= 1)
    else if inst.op == OP_STACKSAVE || inst.op == IR_UNREACHABLE then n == 0
    else if inst.op == IR_RET then n <= 1
    else n == 1 && inst.op < IR_RET && inst.op != 51
  }

  function CalleeToks(m: ModuleNames, f: Func, inst: Inst, rest: seq<Tok>): seq<Tok>
    requires inst.op == OP_CALL && Shaped(inst)
  {
    if inst.subop == CALL_INTERNAL then [SymTok(NameAt(m.funcs, inst.callee))] + rest
    else if inst.subop == CALL_EXTERNAL then
      Word(inst.callee < |m.syms| && inst.callee < |m.attrs| && m.attrs[inst.callee].defKind.FuncDef?, "external",
           [SymTok(NameAt(m.syms, inst.callee))] + rest)
    else Word(inst.ops[0].kind == OpSymbol, "indirect", Atom(m, f, inst.ops[0], rest))
  }

  function CallToks(m: ModuleNames, f: Func, inst: Inst, rest: seq<Tok>): seq<Tok>
    requires inst.op == OP_CALL && Shaped(inst)
  {
    var args := if inst.subop == CALL_INDIRECT then inst.ops[1..] else inst.ops;
    [Ident("call"), Ident(TypeName(inst.ty))] + CalleeToks(m, f, inst,
      [LP] + CallArgs(m, f, args,
        Word(Has(inst.flags, FLAG_UNPROTOTYPED), "unproto",
          Word(Has(inst.flags, FLAG_VARIADIC), "va",
            Word(Has(inst.flags, FLAG_NORETURN), "noreturn", rest)))))
  }

  // Everything after the result.
  function Body(m: ModuleNames, f: Func, inst: Inst, rest: seq<Tok>): seq<Tok>
    requires Shaped(inst)
  {
    var op := inst.op;
    if IsBinary(op) then
      [Ident(OpName(op)), Ident(TypeName(inst.ty))] + Atom(m, f, inst.ops[0],
        [Comma] + Atom(m, f, inst.ops[1], CommaWord(Has(inst.flags, FLAG_NSW), "nsw", rest)))
    else if op == IR_ICMP then
      [Ident("icmp"), Ident(IcmpName(inst.subop)), Ident(TypeName(inst.ops[0].ty))] + Atom(m, f, inst.ops[0],
        [Comma] + Atom(m, f, inst.ops[1], CommaWord(Has(inst.flags, FLAG_BOUNDS), "bounds", rest)))
    else if op == IR_FCMP then
      [Ident("fcmp"), Ident(FcmpName(inst.subop)), Ident(TypeName(inst.ops[0].ty))] + Atom(m, f, inst.ops[0],
        [Comma] + Atom(m, f, inst.ops[1], rest))
    else if op == OP_FNEG || op == OP_FABS then
      [Ident(OpName(op)), Ident(TypeName(inst.ty))] + Atom(m, f, inst.ops[0], rest)
    else if IsCast(op) then
      [Ident(OpName(op))] + Typed(m, f, inst.ops[0], [Ident("to"), Ident(TypeName(inst.ty))] + rest)
    else if op == OP_VSPLAT then
      [Ident("vsplat"), Ident(TypeName(inst.ty))] + Typed(m, f, inst.ops[0], rest)
    else if op == OP_VEXTRACT then
      [Ident("vextract"), Ident(TypeName(inst.ops[0].ty))] + Atom(m, f, inst.ops[0], [Comma, IntTok(inst.subop)] + rest)
    else if IsReduce(op) then
      [Ident(OpName(op)), Ident(TypeName(inst.ops[0].ty))] + Atom(m, f, inst.ops[0], rest)
    else if op == OP_CALL then CallToks(m, f, inst, rest)
    else if op >= IR_RET then Terminator(m, f, inst, rest)
    else MemoryBody(m, f, inst, rest)
  }

  function MemoryBody(m: ModuleNames, f: Func, inst: Inst, rest: seq<Tok>): seq<Tok>
    requires Shaped(inst)
  {
    var op := inst.op;
    if op == OP_ALLOCA then
      [Ident("alloca")] + Atom(m, f, inst.ops[0], AlignClause(inst.callee, EtypeClause(inst.subop, rest)))
    else if op == OP_LOAD then
      [Ident("load"), Ident(TypeName(inst.ty)), Comma] + Atom(m, f, inst.ops[0],
        AlignClause(inst.callee, MemFlags(inst.flags, EtypeClause(inst.subop, rest))))
    else if op == OP_STORE then
      [Ident("store")] + Typed(m, f, inst.ops[0], [Comma] + Atom(m, f, inst.ops[1],
        AlignClause(inst.callee, MemFlags(inst.flags, EtypeClause(inst.subop, rest)))))
    else if op == OP_PTRADD then
      [Ident("ptradd")] + Atom(m, f, inst.ops[0], [Comma] + Atom(m, f, inst.ops[1], rest))
    else if op == OP_MEMCPY || op == OP_MEMSET then
      [Ident(OpName(op))] + Atom(m, f, inst.ops[0], [Comma] + Atom(m, f, inst.ops[1], [Comma] + Atom(m, f, inst.ops[2],
        AlignClause(inst.callee, MemFlags(inst.flags, rest)))))
    else if op == OP_SELECT then
      [Ident("select")] + Atom(m, f, inst.ops[0], [Comma, Ident(TypeName(inst.ty))] + Atom(m, f, inst.ops[1],
        [Comma] + Atom(m, f, inst.ops[2], rest)))
    else if op == OP_VA_START then [Ident("va_start")] + Atom(m, f, inst.ops[0], rest)
    else if op == OP_STACKSAVE then [Ident("stacksave")] + rest
    else if op == OP_STACKRESTORE then [Ident("stackrestore")] + Atom(m, f, inst.ops[0], rest)
    else if op == OP_ATOMICRMW then
      [Ident("atomicrmw"), Ident(RmwName(inst.subop)), Ident(TypeName(inst.ty))] + Atom(m, f, inst.ops[0],
        [Comma] + Atom(m, f, inst.ops[1], MemFlags(inst.flags, rest)))
    else if op == OP_CMPXCHG then
      [Ident("cmpxchg"), Ident(TypeName(inst.ty))] + Atom(m, f, inst.ops[0], [Comma] + Atom(m, f, inst.ops[1],
        [Comma] + Atom(m, f, inst.ops[2], MemFlags(inst.flags, rest))))
    else rest
  }

  function Terminator(m: ModuleNames, f: Func, inst: Inst, rest: seq<Tok>): seq<Tok>
    requires Shaped(inst)
  {
    var op, flow := inst.op, Has(inst.flags, FLAG_FLOW);
    if op == OP_BR then [Ident("br")] + EdgeToks(m, f, inst.edges[0], CommaWord(flow, "defensive", rest))
    else if op == OP_CONDBR then
      [Ident("condbr")] + Atom(m, f, inst.ops[0], [Comma] + EdgeToks(m, f, inst.edges[0],
        [Comma] + EdgeToks(m, f, inst.edges[1], CommaWord(flow, "config", rest))))
    else if op == OP_SWITCH then
      [Ident("switch"), Ident(TypeName(inst.ops[0].ty))] + Atom(m, f, inst.ops[0], [Comma] + EdgeToks(m, f, inst.edges[0],
        Cases(m, f, inst.edges[1..], CommaWord(flow, "config", rest))))
    else if op == IR_RET then
      if |inst.ops| == 0 then [Ident("ret")] + CommaWord(flow, "implicit", rest)
      else [Ident("ret")] + Typed(m, f, inst.ops[0], CommaWord(flow, "implicit", rest))
    else [Ident("unreachable")] + rest
  }

  function InstToks(m: ModuleNames, f: Func, inst: Inst, rest: seq<Tok>): seq<Tok>
    requires Shaped(inst)
  {
    if inst.result != 0 then [ValTok(f, inst.result), Eq] + Body(m, f, inst, rest) else Body(m, f, inst, rest)
  }

  // --- blocks and functions --------------------------------------------------------------------------

  predicate AllShaped(insts: seq<Inst>) {
    forall i | 0 <= i < |insts| :: Shaped(insts[i])
  }

  function InstsToks(m: ModuleNames, f: Func, insts: seq<Inst>, rest: seq<Tok>): seq<Tok>
    requires AllShaped(insts)
  {
    if insts == [] then rest else InstToks(m, f, insts[0], InstsToks(m, f, insts[1..], rest))
  }

  function ParamToks(f: Func, params: seq<nat>, rest: seq<Tok>): seq<Tok> {
    if params == [] then rest
    else
      var here := [Ident(TypeName(Renumbering.TypeOf(f, params[0]))), ValTok(f, params[0])];
      if |params| == 1 then here + rest else here + ([Comma] + ParamToks(f, params[1..], rest))
  }

  function BlockToks(m: ModuleNames, f: Func, block: Block, rest: seq<Tok>): seq<Tok>
    requires AllShaped(block.insts)
  {
    [Ident(block.name), LP] + ParamToks(f, block.params, [RP, Colon] + InstsToks(m, f, block.insts, rest))
  }

  predicate FuncShaped(f: Func) {
    forall b | 0 <= b < |f.blocks| :: AllShaped(f.blocks[b].insts)
  }

  // The blocks from number b on.
  function BlocksToks(m: ModuleNames, f: Func, b: nat, rest: seq<Tok>): seq<Tok>
    requires FuncShaped(f) && b <= |f.blocks|
    decreases |f.blocks| - b
  {
    if b == |f.blocks| then rest else BlockToks(m, f, f.blocks[b], BlocksToks(m, f, b + 1, rest))
  }

  // A function's header fields other than its values; a mark for each parameter.
  datatype Header = Header(ret: nat, name: string, variadic: bool, params: seq<ParamMark>, marks: FuncMarks)

  function FirstMark(marks: seq<ParamMark>): ParamMark {
    if marks == [] then PLAIN else marks[0]
  }

  function LaterMarks(marks: seq<ParamMark>): seq<ParamMark> {
    if marks == [] then [] else marks[1..]
  }

  function FuncParamToks(f: Func, ids: seq<nat>, marks: seq<ParamMark>, rest: seq<Tok>): seq<Tok> {
    if ids == [] then rest
    else
      [Ident(TypeName(Renumbering.TypeOf(f, ids[0])))] + ParamMarkToks(FirstMark(marks),
        [ValTok(f, ids[0])] + if |ids| == 1 then rest else [Comma] + FuncParamToks(f, ids[1..], LaterMarks(marks), rest))
  }

  // The closing parenthesis, after an ellipsis if the function is variadic.
  function ParamsEnd(h: Header, f: Func): seq<Tok> {
    if !h.variadic then [RP] else if f.paramVals == [] then [Ellipsis, RP] else [Comma, Ellipsis, RP]
  }

  function HeaderToks(h: Header, f: Func, rest: seq<Tok>): seq<Tok> {
    [Ident("func"), Ident(TypeName(h.ret)), SymTok(h.name), LP] + FuncParamToks(f, f.paramVals, h.params,
      ParamsEnd(h, f) + FuncMarkToks(h.marks, [LB] + rest))
  }

  function FuncToks(m: ModuleNames, h: Header, f: Func, rest: seq<Tok>): seq<Tok>
    requires FuncShaped(f)
  {
    HeaderToks(h, f, BlocksToks(m, f, 0, [RB] + rest))
  }
}
