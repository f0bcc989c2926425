/** The parser of the textual IR, over tokens. A value named before its definition
    leaves its operand pending until the function closes. */
module IrParse {
  import opened Ir
  import opened IrNames
  import opened IrTokens
  import opened IrMarks
  import opened IrPrint
  import opened Probing

  // An operand still waiting for its value: the name, and for a comparison the
  // written type to check.
  datatype Pending = Ready | Pending(name: string, written: int)

  datatype Slot = Slot(op: Operand, pending: Pending)

  datatype SlotEdge = SlotEdge(target: nat, args: seq<Slot>, caseVal: int)

  datatype SlotInst = SlotInst(
    op: nat, ty: nat, subop: nat, flags: nat, result: nat, callee: nat, ops: seq<Slot>, edges: seq<SlotEdge>)

  datatype SlotBlock = SlotBlock(name: string, params: seq<nat>, insts: seq<SlotInst>)

  // Names and types of the values so far, and the symbol table.
  datatype State = State(names: map<string, nat>, types: seq<nat>, syms: seq<string>)

  // What the scans ahead found: block ids and function numbers, from one.
  datatype Known = Known(blocks: map<string, nat>, funcs: map<string, nat>)

  datatype Parsed<T> = Fail | Parsed(value: T, st: State, rest: seq<Tok>)

  predicate IsVector(ty: nat) {
    TYPE_V16I8 <= ty <= TYPE_V2F64
  }

  predicate IsFloat(ty: nat) {
    TYPE_F32 <= ty <= TYPE_F128
  }

  function ElemType(ty: nat): nat {
    match ty
    case 9 => 0
    case 10 => 1
    case 11 => 2
    case 12 => 3
    case 13 => 4
    case 14 => 5
    case _ => TYPE_VOID
  }

  function TypeOfTok(t: Tok): int {
    if t.Ident? then TypeNumber(t.text) else -1
  }

  function ValueOp(types: seq<nat>, id: nat): Operand {
    Operand(OpValue, if 0 < id <= |types| then types[id - 1] else TYPE_VOID, 0, 0, id, 0)
  }

  // --- operands ---------------------------------------------------------------------------

  function ParseHex(st: State, ty: nat, ts: seq<Tok>): Parsed<Slot>
    requires Front(ts).HexTok?
  {
    var v := ts[0].value;
    if !IsFloat(ty) then Parsed(Slot(Operand(OpIconst, ty, 0, 0, v, 0), Ready), st, ts[1..])
    else if ty == TYPE_F80 || ty == TYPE_F128 then
      if |ts| < 3 || !ts[1].Colon? || !ts[2].HexTok? || (ty == TYPE_F80 && v > 0xFFFF) then Fail
      else Parsed(Slot(Operand(OpFconst, ty, 0, 0, ts[2].value, v), Ready), st, ts[3..])
    else if ty == TYPE_F32 && v > 0xFFFF_FFFF then Fail
    else Parsed(Slot(Operand(OpFconst, ty, 0, 0, v, 0), Ready), st, ts[1..])
  }

  function ParseSymbol(st: State, ty: nat, ts: seq<Tok>): Parsed<Slot>
    requires Front(ts).Symbol?
  {
    var name := TokName(ts[0]);
    var st' := st.(syms := Inserted(st.syms, name));
    var added := Second(ts).IntTok?;
    Parsed(Slot(Operand(OpSymbol, ty, 0, Find(st.syms, name), if added then ts[1].value else 0, 0), Ready),
           st', if added then ts[2..] else ts[1..])
  }

  function ParseAtom(st: State, ty: nat, ts: seq<Tok>): Parsed<Slot> {
    match Front(ts)
    case Pident(name) =>
      Parsed(if name in st.names then Slot(ValueOp(st.types, st.names[name]), Ready)
             else Slot(Operand(OpValue, ty, 0, 0, 0, 0), Pending(name, -1)), st, ts[1..])
    case IntTok(v) =>
      if IsVector(ty) || IsFloat(ty) then Fail else Parsed(Slot(Operand(OpIconst, ty, 0, 0, v, 0), Ready), st, ts[1..])
    case HexTok(_, _) => if IsVector(ty) then Fail else ParseHex(st, ty, ts)
    case Symbol(_, _) => if IsVector(ty) then Fail else ParseSymbol(st, ty, ts)
    case Ident(word) => if word == "undef" then Parsed(Slot(Operand(OpUndef, ty, 0, 0, 0, 0), Ready), st, ts[1..]) else Fail
    case _ => Fail
  }

  function ParseTyped(st: State, ts: seq<Tok>): Parsed<Slot> {
    if TypeOfTok(Front(ts)) < 0 then Fail else ParseAtom(st, TypeOfTok(ts[0]), ts[1..])
  }

  // The written type must be the operand's; a pending one is checked later.
  function ParseCmpAtom(st: State, written: nat, ts: seq<Tok>): Parsed<Slot> {
    match ParseAtom(st, written, ts)
    case Fail => Fail
    case Parsed(s, st', rest) =>
      if s.pending.Pending? then Parsed(s.(pending := s.pending.(written := written)), st', rest)
      else if s.op.ty != written then Fail
      else Parsed(s, st', rest)
  }

  // --- call arguments -----------------------------------------------------------------------

  function BitOr(a: nat, b: nat): nat {
    if a == 0 then b
    else if b == 0 then a
    else (if a % 2 == 1 || b % 2 == 1 then 1 else 0) + 2 * BitOr(a / 2, b / 2)
  }

  function KindOf(t: Tok): nat {
    if IsWord(t, "byval") then 1
    else if IsWord(t, "sret") then 2
    else if IsWord(t, "pair_ii") then 3
    else if IsWord(t, "pair_is") then 4
    else if IsWord(t, "pair_si") then 5
    else if IsWord(t, "pair_ss") then 6
    else if IsWord(t, "hfa") then 7
    else 0
  }

  // (N) after an annotation word, or (N,L) after hfa.
  function ParseKind(s: Slot, st: State, ts: seq<Tok>): Parsed<Slot> {
    var kind := KindOf(Front(ts));
    if kind == 0 then Parsed(s, st, ts)
    else if |ts| < 4 || !ts[1].LP? || !ts[2].IntTok? then Fail
    else
      var size := ts[2].value % 0x1_0000_0000;
      if kind == KIND_HFA then
        if |ts| < 6 || !ts[3].Comma? || !ts[4].IntTok? || !ts[5].RP? then Fail
        else
          var leaves := ts[4].value % 0x1_0000_0000;
          Parsed(s.(op := s.op.(b := BitOr(BitOr(KIND_HFA * 0x1_0000_0000, leaves * 0x8_0000_0000 % U64), size))), st, ts[6..])
      else if !ts[3].RP? then Fail
      else Parsed(s.(op := s.op.(b := kind * 0x1_0000_0000 + size)), st, ts[4..])
  }

  function TakeFlag(s: Slot, st: State, ts: seq<Tok>, word: string, flag: nat): Parsed<Slot> {
    if IsWord(Front(ts), word) then Parsed(s.(op := s.op.(argflags := BitOr(s.op.argflags, flag))), st, ts[1..])
    else Parsed(s, st, ts)
  }

  predicate Annotatable(s: Slot) {
    s.op.kind == OpValue || s.op.kind == OpSymbol
  }

  function ParseAlignMark(s: Slot, st: State, ts: seq<Tok>): Parsed<Slot> {
    if IsWord(Front(ts), "stackalign16") then
      if !Annotatable(s) then Fail else Parsed(s.(op := s.op.(b := BitOr(s.op.b, 2 * 0x40_0000_0000))), st, ts[1..])
    else if IsWord(Front(ts), "stackalign") then
      if !Annotatable(s) || |ts| < 4 || !ts[1].LP? || !ts[2].IntTok? || !ts[3].RP? then Fail
      else if ts[2].value < 8 || ts[2].value % 8 != 0 || ts[2].value > 0x100_0000 then Fail
      else Parsed(s.(op := s.op.(b := BitOr(s.op.b, ts[2].value / 8 * 0x40_0000_0000))), st, ts[4..])
    else Parsed(s, st, ts)
  }

  function ParseEven(s: Slot, st: State, ts: seq<Tok>): Parsed<Slot> {
    if !IsWord(Front(ts), "even") then Parsed(s, st, ts)
    else if !Annotatable(s) then Fail
    else Parsed(s.(op := s.op.(b := BitOr(s.op.b, 0x2000_0000_0000_0000))), st, ts[1..])
  }

  // The marks come in the printer's order; sext and zext exclude each other.
  function ParseMarks(s: Slot, st: State, ts: seq<Tok>): Parsed<Slot> {
    match TakeFlag(s, st, ts, "anon", ARG_ANON)
    case Fail => Fail
    case Parsed(s1, _, ts1) =>
      var widened := if IsWord(Front(ts1), "sext") then TakeFlag(s1, st, ts1, "sext", ARG_SEXT) else TakeFlag(s1, st, ts1, "zext", ARG_ZEXT);
      match widened
      case Fail => Fail
      case Parsed(s2, _, ts2) =>
        match TakeFlag(s2, st, ts2, "onstack", ARG_ONSTACK)
        case Fail => Fail
        case Parsed(s3, _, ts3) =>
          match ParseAlignMark(s3, st, ts3)
          case Fail => Fail
          case Parsed(s4, _, ts4) => ParseEven(s4, st, ts4)
  }

  function ParseCallArg(st: State, ts: seq<Tok>): Parsed<Slot> {
    match ParseTyped(st, ts)
    case Fail => Fail
    case Parsed(s, st', rest) =>
      match ParseKind(s, st', rest)
      case Fail => Fail
      case Parsed(s', _, rest') => ParseMarks(s', st', rest')
  }

  // Items up to the matching parenthesis, looked at before any is parsed.
  function CountFrom(ts: seq<Tok>, depth: nat, n: nat): int {
    if ts == [] || ts[0].Eof? || ts[0].RB? then -1
    else if ts[0].LP? then CountFrom(ts[1..], depth + 1, n)
    else if ts[0].RP? then if depth == 0 then n else CountFrom(ts[1..], depth - 1, n)
    else if ts[0].Comma? && depth == 0 then CountFrom(ts[1..], depth, n + 1)
    else CountFrom(ts[1..], depth, n)
  }

  function CountArgs(ts: seq<Tok>): int {
    if Front(ts).RP? then 0 else CountFrom(ts, 0, 1)
  }

  // n items, then the closing parenthesis.
  function ParseItems(st: State, ts: seq<Tok>, n: nat, first: bool, call: bool): Parsed<seq<Slot>>
    decreases n
  {
    if n == 0 then if Front(ts).RP? then Parsed([], st, ts[1..]) else Fail
    else if !first && !Front(ts).Comma? then Fail
    else
      var at := if first then ts else ts[1..];
      match (if call then ParseCallArg(st, at) else ParseTyped(st, at))
      case Fail => Fail
      case Parsed(s, st', rest) =>
        match ParseItems(st', rest, n - 1, false, call)
        case Fail => Fail
        case Parsed(more, st'', rest') => Parsed([s] + more, st'', rest')
  }

  function ParseArgs(st: State, ts: seq<Tok>, call: bool): Parsed<seq<Slot>> {
    if CountArgs(ts) < 0 then Fail else ParseItems(st, ts, CountArgs(ts), true, call)
  }

  // --- clauses ------------------------------------------------------------------------------------

  function ParseEdge(k: Known, st: State, ts: seq<Tok>, caseVal: int): Parsed<SlotEdge> {
    if |ts| < 2 || !ts[0].Ident? || ts[0].text !in k.blocks || !ts[1].LP? then Fail
    else
      match ParseArgs(st, ts[2..], false)
      case Fail => Fail
      case Parsed(args, st', rest) => Parsed(SlotEdge(k.blocks[ts[0].text], args, caseVal), st', rest)
  }

  function ParseAlign(ts: seq<Tok>): Clause<nat> {
    if |ts| < 3 || !ts[0].Comma? || !IsWord(ts[1], "align") || !ts[2].IntTok? || ts[2].value > 0xFFFF_FFFF then NoClause
    else Clause(ts[2].value, ts[3..])
  }

  function MemFlagOf(t: Tok): nat {
    if IsWord(t, "volatile") then FLAG_VOLATILE
    else if IsWord(t, "seq_cst") then FLAG_SEQ_CST
    else if IsWord(t, "self_init") then FLAG_SELF_INIT
    else 0
  }

  function ParseMemFlags(ts: seq<Tok>, flags: nat): (nat, seq<Tok>)
    decreases |ts|
  {
    if Front(ts).Comma? && |ts| >= 2 && MemFlagOf(ts[1]) != 0 then ParseMemFlags(ts[2..], BitOr(flags, MemFlagOf(ts[1]))) else (flags, ts)
  }

  // `, etype NAME`, keeping what was there without it.
  function ParseEtype(ts: seq<Tok>, given: nat): Clause<nat> {
    if !Front(ts).Comma? || !IsWord(Second(ts), "etype") then Clause(given, ts)
    else if |ts| < 3 || !ts[2].Ident? || EtypeNumber(ts[2].text) < 0 then NoClause
    else Clause(EtypeNumber(ts[2].text), ts[3..])
  }

  // `, word` sets a flag.
  function TakeCommaWord(ts: seq<Tok>, word: string): (bool, seq<Tok>) {
    if Front(ts).Comma? && IsWord(Second(ts), word) then (true, ts[2..]) else (false, ts)
  }

  function FlagIf(on: bool, flag: nat): nat {
    if on then flag else 0
  }

  // --- instructions ---------------------------------------------------------------------------------

  datatype Result = Unnamed | Named(name: string)

  datatype Appended = Clash | Appended(id: nat, st: State)

  // The result of an instruction joins the table; a name is defined once.
  function Append(st: State, ty: nat, r: Result): Appended {
    match r
    case Unnamed => Appended(0, st)
    case Named(name) =>
      if name in st.names then Clash
      else Appended(|st.types| + 1, st.(names := st.names[name := |st.types| + 1], types := st.types + [ty]))
  }

  function Finish(op: nat, ty: nat, subop: nat, flags: nat, id: nat, callee: nat, ops: seq<Slot>, st: State, rest: seq<Tok>): Parsed<SlotInst> {
    Parsed(SlotInst(op, ty, subop, flags, id, callee, ops, []), st, rest)
  }

  // Two atoms of given types, with a comma between.
  function ParsePair(st: State, ty: nat, ty2: nat, ts: seq<Tok>): Parsed<seq<Slot>> {
    match ParseAtom(st, ty, ts)
    case Fail => Fail
    case Parsed(a, st', rest) =>
      if !Front(rest).Comma? then Fail
      else
        match ParseAtom(st', ty2, rest[1..])
        case Fail => Fail
        case Parsed(b, st'', rest') => Parsed([a, b], st'', rest')
  }

  function ParseTriple(st: State, ty: nat, ty2: nat, ty3: nat, ts: seq<Tok>): Parsed<seq<Slot>> {
    match ParsePair(st, ty, ty2, ts)
    case Fail => Fail
    case Parsed(ab, st', rest) =>
      if !Front(rest).Comma? then Fail
      else
        match ParseAtom(st', ty3, rest[1..])
        case Fail => Fail
        case Parsed(c, st'', rest') => Parsed(ab + [c], st'', rest')
  }

  function ParseBinary(op: nat, st: State, r: Result, ts: seq<Tok>): Parsed<SlotInst> {
    var early := op <= 2 && IsWord(Front(ts), "nsw");
    var at := if early then ts[1..] else ts;
    var ty := TypeOfTok(Front(at));
    if ty < 0 then Fail
    else
      match Append(st, ty, r)
      case Clash => Fail
      case Appended(id, st1) =>
        match ParsePair(st1, ty, ty, at[1..])
        case Fail => Fail
        case Parsed(ops, st2, rest) =>
          var nsw := if op <= 2 then TakeCommaWord(rest, "nsw") else (false, rest);
          Finish(op, ty, 0, FlagIf(early || nsw.0, FLAG_NSW), id, 0, ops, st2, nsw.1)
  }

  function ParseCompare(op: nat, st: State, r: Result, ts: seq<Tok>): Parsed<SlotInst> {
    var pred := if !Front(ts).Ident? then -1 else if op == IR_ICMP then IcmpNumber(ts[0].text) else FcmpNumber(ts[0].text);
    if pred < 0 || TypeOfTok(Second(ts)) < 0 then Fail
    else
      var ty: nat := TypeOfTok(ts[1]);
      match Append(st, TYPE_I32, r)
      case Clash => Fail
      case Appended(id, st1) =>
        match ParseCmpAtom(st1, ty, ts[2..])
        case Fail => Fail
        case Parsed(a, st2, rest) =>
          if !Front(rest).Comma? then Fail
          else
            match ParseCmpAtom(st2, ty, rest[1..])
            case Fail => Fail
            case Parsed(b, st3, rest') =>
              var bounds := if op == IR_ICMP then TakeCommaWord(rest', "bounds") else (false, rest');
              Finish(op, TYPE_I32, pred, FlagIf(bounds.0, FLAG_BOUNDS), id, 0, [a, b], st3, bounds.1)
  }

  // One operand of the written type, a result of another.
  function ParseUnary(op: nat, st: State, r: Result, result: nat, operand: nat, ts: seq<Tok>): Parsed<SlotInst> {
    match Append(st, result, r)
    case Clash => Fail
    case Appended(id, st1) =>
      match ParseAtom(st1, operand, ts)
      case Fail => Fail
      case Parsed(a, st2, rest) => Finish(op, result, 0, 0, id, 0, [a], st2, rest)
  }

  function ParseVector(op: nat, st: State, r: Result, ts: seq<Tok>): Parsed<SlotInst> {
    var ty := TypeOfTok(Front(ts));
    if ty < 0 then Fail
    else if op == OP_FNEG || op == OP_FABS then ParseUnary(op, st, r, ty, ty, ts[1..])
    else if op == OP_VSPLAT then
      if TypeOfTok(Second(ts)) != ElemType(ty) then Fail else ParseUnary(op, st, r, ty, ElemType(ty), ts[2..])
    else
      match ParseUnary(op, st, r, ElemType(ty), ty, ts[1..])
      case Fail => Fail
      case Parsed(inst, st', rest) =>
        if op != OP_VEXTRACT then Parsed(inst, st', rest)
        else if !Front(rest).Comma? || !Second(rest).IntTok? || rest[1].value > 255 then Fail
        else Parsed(inst.(subop := rest[1].value), st', rest[2..])
  }

  // The operand is parsed before the result is defined.
  function ParseCast(op: nat, st: State, r: Result, ts: seq<Tok>): Parsed<SlotInst> {
    match ParseTyped(st, ts)
    case Fail => Fail
    case Parsed(a, st1, rest) =>
      if !IsWord(Front(rest), "to") || TypeOfTok(Second(rest)) < 0 then Fail
      else
        match Append(st1, TypeOfTok(rest[1]), r)
        case Clash => Fail
        case Appended(id, st2) => Finish(op, TypeOfTok(rest[1]), 0, 0, id, 0, [a], st2, rest[2..])
  }

  function ParseSelect(st: State, r: Result, ts: seq<Tok>): Parsed<SlotInst> {
    match ParseAtom(st, TYPE_I32, ts)
    case Fail => Fail
    case Parsed(c, st1, rest) =>
      if !Front(rest).Comma? || TypeOfTok(Second(rest)) < 0 then Fail
      else
        var ty: nat := TypeOfTok(rest[1]);
        match Append(st1, ty, r)
        case Clash => Fail
        case Appended(id, st2) =>
          match ParsePair(st2, ty, ty, rest[2..])
          case Fail => Fail
          case Parsed(ab, st3, rest') => Finish(OP_SELECT, ty, 0, 0, id, 0, [c] + ab, st3, rest')
  }

  // The align clause, then flags and effective type as the opcode has them.
  function ParseMemoryTail(op: nat, ty: nat, id: nat, ops: seq<Slot>, st: State, ts: seq<Tok>): Parsed<SlotInst> {
    match ParseAlign(ts)
    case NoClause => Fail
    case Clause(align, rest) =>
      if op == OP_MEMCPY || op == OP_MEMSET then
        match ParseEtype(rest, ETYPE_CHAR)
        case NoClause => Fail
        case Clause(etype, rest') =>
          var flags := ParseMemFlags(rest', 0);
          Finish(op, ty, etype, flags.0, id, align, ops, st, flags.1)
      else
        var flags := if op == OP_ALLOCA then (0, rest) else ParseMemFlags(rest, 0);
        match ParseEtype(flags.1, 0)
        case NoClause => Fail
        case Clause(etype, rest') => Finish(op, ty, etype, flags.0, id, align, ops, st, rest')
  }

  function ParseMemory(op: nat, st: State, r: Result, ts: seq<Tok>): Parsed<SlotInst> {
    if op == OP_ALLOCA then
      match Append(st, TYPE_PTR, r)
      case Clash => Fail
      case Appended(id, st1) =>
        match ParseAtom(st1, TYPE_I64, ts)
        case Fail => Fail
        case Parsed(a, st2, rest) => ParseMemoryTail(op, TYPE_PTR, id, [a], st2, rest)
    else if op == OP_LOAD then
      if TypeOfTok(Front(ts)) < 0 || !Second(ts).Comma? then Fail
      else
        match Append(st, TypeOfTok(ts[0]), r)
        case Clash => Fail
        case Appended(id, st1) =>
          match ParseAtom(st1, TYPE_PTR, ts[2..])
          case Fail => Fail
          case Parsed(a, st2, rest) => ParseMemoryTail(op, TypeOfTok(ts[0]), id, [a], st2, rest)
    else if op == OP_STORE then
      match ParseTyped(st, ts)
      case Fail => Fail
      case Parsed(a, st1, rest) =>
        if !Front(rest).Comma? then Fail
        else
          match ParseAtom(st1, TYPE_PTR, rest[1..])
          case Fail => Fail
          case Parsed(b, st2, rest') => ParseMemoryTail(op, TYPE_VOID, 0, [a, b], st2, rest')
    else
      match ParseTriple(st, TYPE_PTR, if op == OP_MEMCPY then TYPE_PTR else TYPE_I32, TYPE_I64, ts)
      case Fail => Fail
      case Parsed(abc, st1, rest) => ParseMemoryTail(op, TYPE_VOID, 0, abc, st1, rest)
  }

  function ParseAtomic(op: nat, st: State, r: Result, ts: seq<Tok>): Parsed<SlotInst> {
    var rmw := if op == OP_CMPXCHG then 0 else if Front(ts).Ident? then RmwNumber(ts[0].text) else -1;
    var at := if op == OP_CMPXCHG || ts == [] then ts else ts[1..];
    if rmw < 0 || TypeOfTok(Front(at)) < 0 then Fail
    else
      var ty: nat := TypeOfTok(at[0]);
      match Append(st, ty, r)
      case Clash => Fail
      case Appended(id, st1) =>
        match (if op == OP_CMPXCHG then ParseTriple(st1, TYPE_PTR, ty, ty, at[1..]) else ParsePair(st1, TYPE_PTR, ty, at[1..]))
        case Fail => Fail
        case Parsed(ops, st2, rest) =>
          var flags := ParseMemFlags(rest, 0);
          Finish(op, ty, rmw, flags.0, id, 0, ops, st2, flags.1)
  }

  function ParsePtradd(st: State, r: Result, ts: seq<Tok>): Parsed<SlotInst> {
    match Append(st, TYPE_PTR, r)
    case Clash => Fail
    case Appended(id, st1) =>
      match ParsePair(st1, TYPE_PTR, TYPE_I64, ts)
      case Fail => Fail
      case Parsed(ops, st2, rest) => Finish(OP_PTRADD, TYPE_PTR, 0, 0, id, 0, ops, st2, rest)
  }

  // The callee: how it is meant, and its pointer when it is indirect.
  datatype Callee = Direct(name: string, external: bool) | Through(pointer: Slot)

  function ParseCallee(st: State, ts: seq<Tok>): Parsed<Callee> {
    var external := IsWord(Front(ts), "external");
    var ts1 := if external then ts[1..] else ts;
    var indirect := IsWord(Front(ts1), "indirect");
    var ts2 := if indirect then ts1[1..] else ts1;
    if external && (indirect || !Front(ts2).Symbol?) then Fail
    else if Front(ts2).Symbol? && !indirect then Parsed(Direct(TokName(ts2[0]), external), st, ts2[1..])
    else
      match ParseAtom(st, TYPE_PTR, ts2)
      case Fail => Fail
      case Parsed(p, st', rest) => Parsed(Through(p), st', rest)
  }

  function CallFlags(ts: seq<Tok>): (nat, seq<Tok>) {
    var a := TakeWord(ts, "unproto");
    var b := TakeWord(a.1, "va");
    var c := TakeWord(b.1, "noreturn");
    (FlagIf(a.0, FLAG_UNPROTOTYPED) + FlagIf(b.0, FLAG_VARIADIC) + FlagIf(c.0, FLAG_NORETURN), c.1)
  }

  // A direct name is internal when the scan ahead found a body for it.
  function CalleeRef(k: Known, st: State, c: Callee): (nat, nat, State) {
    match c
    case Through(_) => (CALL_INDIRECT, 0, st)
    case Direct(name, external) =>
      if name in k.funcs && !external && k.funcs[name] > 0 then (CALL_INTERNAL, k.funcs[name] - 1, st)
      else (CALL_EXTERNAL, Find(st.syms, name), st.(syms := Inserted(st.syms, name)))
  }

  function ParseCall(k: Known, st: State, r: Result, ts: seq<Tok>): Parsed<SlotInst> {
    var ty := TypeOfTok(Front(ts));
    if ty < 0 || (r.Named? <==> ty == TYPE_VOID) then Fail
    else
      match ParseCallee(st, ts[1..])
      case Fail => Fail
      case Parsed(c, st1, rest) =>
        if !Front(rest).LP? || CountArgs(rest[1..]) < 0 then Fail
        else
          match Append(st1, ty, r)
          case Clash => Fail
          case Appended(id, st2) =>
            var ref := CalleeRef(k, st2, c);
            match ParseItems(ref.2, rest[1..], CountArgs(rest[1..]), true, true)
            case Fail => Fail
            case Parsed(args, st4, rest') =>
              var flags := CallFlags(rest');
              Finish(OP_CALL, ty, ref.0, flags.0, id, ref.1, if c.Through? then [c.pointer] + args else args, st4, flags.1)
  }

  function ParseCases(k: Known, st: State, ts: seq<Tok>): Parsed<seq<SlotEdge>>
    decreases |ts|
  {
    if !Front(ts).Comma? || !Second(ts).IntTok? then Parsed([], st, ts)
    else if |ts| < 3 || !ts[2].Colon? then Fail
    else
      match ParseEdge(k, st, ts[3..], Signed(ts[1].value))
      case Fail => Fail
      case Parsed(e, st', rest) =>
        if |rest| >= |ts| then Fail
        else
          match ParseCases(k, st', rest)
          case Fail => Fail
          case Parsed(es, st'', rest') => Parsed([e] + es, st'', rest')
  }

  function WithFlow(op: nat, ops: seq<Slot>, edges: seq<SlotEdge>, st: State, ts: seq<Tok>, word: string): Parsed<SlotInst> {
    var flow := TakeCommaWord(ts, word);
    Parsed(SlotInst(op, TYPE_VOID, 0, FlagIf(flow.0, FLAG_FLOW), 0, 0, ops, edges), st, flow.1)
  }

  function ParseRet(st: State, ts: seq<Tok>): Parsed<SlotInst> {
    if TypeOfTok(Front(ts)) < 0 then WithFlow(IR_RET, [], [], st, ts, "implicit")
    else
      match ParseTyped(st, ts)
      case Fail => Fail
      case Parsed(a, st', rest) => WithFlow(IR_RET, [a], [], st', rest, "implicit")
  }

  function ParseCondbr(k: Known, st: State, ts: seq<Tok>): Parsed<SlotInst> {
    match ParseAtom(st, TYPE_I32, ts)
    case Fail => Fail
    case Parsed(c, st1, rest) =>
      if !Front(rest).Comma? then Fail
      else
        match ParseEdge(k, st1, rest[1..], 0)
        case Fail => Fail
        case Parsed(e, st2, rest') =>
          if !Front(rest').Comma? then Fail
          else
            match ParseEdge(k, st2, rest'[1..], 0)
            case Fail => Fail
            case Parsed(e2, st3, rest'') => WithFlow(OP_CONDBR, [c], [e, e2], st3, rest'', "config")
  }

  function ParseSwitch(k: Known, st: State, ts: seq<Tok>): Parsed<SlotInst> {
    if TypeOfTok(Front(ts)) < 0 then Fail
    else
      match ParseAtom(st, TypeOfTok(ts[0]), ts[1..])
      case Fail => Fail
      case Parsed(c, st1, rest) =>
        if !Front(rest).Comma? then Fail
        else
          match ParseEdge(k, st1, rest[1..], 0)
          case Fail => Fail
          case Parsed(e, st2, rest') =>
            match ParseCases(k, st2, rest')
            case Fail => Fail
            case Parsed(es, st3, rest'') => WithFlow(OP_SWITCH, [c], [e] + es, st3, rest'', "config")
  }

  function ParseTerminator(op: nat, k: Known, st: State, ts: seq<Tok>): Parsed<SlotInst> {
    if op == IR_RET then ParseRet(st, ts)
    else if op == OP_BR then
      match ParseEdge(k, st, ts, 0)
      case Fail => Fail
      case Parsed(e, st', rest) => WithFlow(OP_BR, [], [e], st', rest, "defensive")
    else if op == OP_CONDBR then ParseCondbr(k, st, ts)
    else if op == OP_SWITCH then ParseSwitch(k, st, ts)
    else Finish(op, TYPE_VOID, 0, 0, 0, 0, [], st, ts)
  }

  // Opcodes that never define a value.
  predicate Valueless(op: nat) {
    op in {OP_STORE, OP_MEMCPY, OP_MEMSET, OP_VA_START, OP_STACKRESTORE, 51} || op >= IR_RET
  }

  function ParseBody(op: nat, k: Known, st: State, r: Result, ts: seq<Tok>): Parsed<SlotInst> {
    if IsBinary(op) then ParseBinary(op, st, r, ts)
    else if op == IR_ICMP || op == IR_FCMP then ParseCompare(op, st, r, ts)
    else if IsCast(op) then ParseCast(op, st, r, ts)
    else if op == OP_FNEG || op == OP_FABS || op == OP_VSPLAT || op == OP_VEXTRACT || IsReduce(op) then ParseVector(op, st, r, ts)
    else if op == OP_SELECT then ParseSelect(st, r, ts)
    else if op in {OP_ALLOCA, OP_LOAD, OP_STORE, OP_MEMCPY, OP_MEMSET} then ParseMemory(op, st, r, ts)
    else if op == OP_ATOMICRMW || op == OP_CMPXCHG then ParseAtomic(op, st, r, ts)
    else if op == OP_PTRADD then ParsePtradd(st, r, ts)
    else if op == OP_CALL then ParseCall(k, st, r, ts)
    else if op == OP_VA_START || op == OP_STACKRESTORE then ParseUnary(op, st, Unnamed, TYPE_VOID, TYPE_PTR, ts)
    else if op == OP_STACKSAVE then
      match Append(st, TYPE_PTR, r)
      case Clash => Fail
      case Appended(id, st1) => Finish(op, TYPE_PTR, 0, 0, id, 0, [], st1, ts)
    else if op >= IR_RET then ParseTerminator(op, k, st, ts)
    else Fail
  }

  function ParseInst(k: Known, st: State, ts: seq<Tok>): Parsed<SlotInst> {
    var named := Front(ts).Pident?;
    if named && !Second(ts).Eq? then Fail
    else
      var r := if named then Named(ts[0].text) else Unnamed;
      var at := if named then ts[2..] else ts;
      var op := if Front(at).Ident? then OpNumber(at[0].text) else -1;
      if op < 0 || (named && Valueless(op)) || (!named && !Valueless(op) && op != OP_CALL) then Fail
      else ParseBody(op, k, st, r, at[1..])
  }

  // --- blocks -----------------------------------------------------------------------------------------

  predicate AtHeader(k: Known, ts: seq<Tok>) {
    Front(ts).Ident? && ts[0].text in k.blocks && Second(ts).LP? && OpNumber(ts[0].text) < 0
  }

  // Instructions up to the next block header or the closing brace.
  function ParseInsts(k: Known, st: State, ts: seq<Tok>): Parsed<seq<SlotInst>>
    decreases |ts|
  {
    if Front(ts).RB? || AtHeader(k, ts) then Parsed([], st, ts)
    else
      match ParseInst(k, st, ts)
      case Fail => Fail
      case Parsed(inst, st', rest) =>
        if |rest| >= |ts| then Fail
        else
          match ParseInsts(k, st', rest)
          case Fail => Fail
          case Parsed(more, st'', rest') => Parsed([inst] + more, st'', rest')
  }

  // `type %name` items, comma-separated, as long as commas follow.
  function ParseParams(st: State, ts: seq<Tok>): Parsed<seq<nat>>
    decreases |ts|
  {
    if TypeOfTok(Front(ts)) < 0 || !Second(ts).Pident? then Fail
    else
      match Append(st, TypeOfTok(ts[0]), Named(ts[1].text))
      case Clash => Fail
      case Appended(id, st') =>
        if |ts| < 3 || !ts[2].Comma? || (|ts| > 3 && ts[3].Ellipsis?) then Parsed([id], st', ts[2..])
        else
          match ParseParams(st', ts[3..])
          case Fail => Fail
          case Parsed(more, st'', rest) => Parsed([id] + more, st'', rest)
  }

  function ParseHeader(k: Known, st: State, ts: seq<Tok>): Parsed<(string, seq<nat>)> {
    if !Front(ts).Ident? || ts[0].text !in k.blocks || !Second(ts).LP? then Fail
    else
      var params := if Front(ts[2..]).RP? then Parsed([], st, ts[2..]) else ParseParams(st, ts[2..]);
      match params
      case Fail => Fail
      case Parsed(ids, st', rest) =>
        if !Front(rest).RP? || !Second(rest).Colon? then Fail else Parsed((ts[0].text, ids), st', rest[2..])
  }

  function ParseBlocks(k: Known, st: State, ts: seq<Tok>): Parsed<seq<SlotBlock>>
    decreases |ts|
  {
    if Front(ts).RB? then Parsed([], st, ts[1..])
    else
      match ParseHeader(k, st, ts)
      case Fail => Fail
      case Parsed(h, st1, rest) =>
        if |rest| >= |ts| then Fail
        else
          match ParseInsts(k, st1, rest)
          case Fail => Fail
          case Parsed(insts, st2, rest') =>
            if |rest'| >= |ts| then Fail
            else
              match ParseBlocks(k, st2, rest')
              case Fail => Fail
              case Parsed(more, st3, rest'') => Parsed([SlotBlock(h.0, h.1, insts)] + more, st3, rest'')
  }

  // --- the scan ahead for block labels ---------------------------------------------------------------

  function FirstRP(ts: seq<Tok>): int {
    if ts == [] || ts[0].Eof? then -1
    else if ts[0].RP? then 0
    else if FirstRP(ts[1..]) < 0 then -1 else 1 + FirstRP(ts[1..])
  }

  // How many tokens a block header takes if there is one here; 0 if not.
  function HeaderAt(ts: seq<Tok>): nat {
    if |ts| < 2 || !ts[0].Ident? || !ts[1].LP? then 0
    else
      var j := FirstRP(ts[2..]);
      if j < 0 || |ts| <= j + 3 || !ts[j + 3].Colon? then 0 else j + 4
  }

  predicate Reserved(label_: string) {
    OpNumber(label_) >= 0 || TypeNumber(label_) >= 0 || label_ == "undef"
  }

  datatype Labels = BadLabels | Labels(names: seq<string>)

  // The labels of a function body, in order.
  function Prescan(ts: seq<Tok>, found: seq<string>): Labels
    decreases |ts|
  {
    if ts == [] || ts[0].Eof? then BadLabels
    else if ts[0].RB? then Labels(found)
    else
      var n := HeaderAt(ts);
      if n == 0 then Prescan(ts[1..], found)
      else if ts[0].text in found || Reserved(ts[0].text) then BadLabels
      else if n > |ts| then BadLabels
      else Prescan(ts[n..], found + [ts[0].text])
  }

  function Numbered(names: seq<string>): map<string, nat> {
    if names == [] then map[] else Numbered(names[..|names| - 1])[names[|names| - 1] := |names|]
  }

  // --- closing a function ------------------------------------------------------------------------------

  datatype Resolved = Unresolved | Resolved(op: Operand)

  // A pending operand becomes its value, keeping only the annotation.
  function Resolve(st: State, s: Slot): Resolved {
    match s.pending
    case Ready => Resolved(s.op)
    case Pending(name, written) =>
      if name !in st.names then Unresolved
      else
        var o := ValueOp(st.types, st.names[name]);
        if written >= 0 && o.ty != written then Unresolved else Resolved(o.(b := s.op.b))
  }

  predicate Resolves(st: State, s: Slot) {
    Resolve(st, s).Resolved?
  }

  predicate AllResolve(st: State, ss: seq<Slot>) {
    forall i | 0 <= i < |ss| :: Resolves(st, ss[i])
  }

  function ResolveAll(st: State, ss: seq<Slot>): (r: seq<Operand>)
    requires AllResolve(st, ss)
    ensures |r| == |ss|
  {
    seq(|ss|, i requires 0 <= i < |ss| => assert Resolves(st, ss[i]); Resolve(st, ss[i]).op)
  }

  predicate EdgeResolves(st: State, e: SlotEdge) {
    AllResolve(st, e.args)
  }

  function ResolveEdge(st: State, e: SlotEdge): Edge
    requires EdgeResolves(st, e)
  {
    Edge(e.target, ResolveAll(st, e.args), e.caseVal)
  }

  predicate InstResolves(st: State, x: SlotInst) {
    AllResolve(st, x.ops) && forall i | 0 <= i < |x.edges| :: EdgeResolves(st, x.edges[i])
  }

  function ResolveInst(st: State, x: SlotInst): Inst
    requires InstResolves(st, x)
  {
    Inst(0, x.op, x.ty, x.subop, x.flags, x.result, x.callee, ResolveAll(st, x.ops),
         seq(|x.edges|, i requires 0 <= i < |x.edges| => ResolveEdge(st, x.edges[i])))
  }

  predicate BlockResolves(st: State, b: SlotBlock) {
    forall i | 0 <= i < |b.insts| :: InstResolves(st, b.insts[i])
  }

  function ResolveBlock(st: State, b: SlotBlock): Block
    requires BlockResolves(st, b)
  {
    Block(b.name, b.params, seq(|b.insts|, i requires 0 <= i < |b.insts| => ResolveInst(st, b.insts[i])))
  }

  // --- functions -----------------------------------------------------------------------------------------

  // A parsed function: its values are known by their types.
  datatype ParsedFunc = ParsedFunc(header: Header, paramVals: seq<nat>, blocks: seq<Block>, types: seq<nat>)

  datatype FuncResult = BadFunc | FuncResult(func: ParsedFunc, syms: seq<string>, rest: seq<Tok>)

  // `type marks %name` items, comma-separated, as long as commas follow.
  function ParseMarkedParams(st: State, ts: seq<Tok>): Parsed<(seq<nat>, seq<ParamMark>)>
    decreases |ts|
  {
    if TypeOfTok(Front(ts)) < 0 then Fail
    else
      match TakeParamMark(ts[1..])
      case NoClause => Fail
      case Clause(mark, at) =>
        if |at| >= |ts| || !Front(at).Pident? then Fail
        else
          match Append(st, TypeOfTok(ts[0]), Named(at[0].text))
          case Clash => Fail
          case Appended(id, st') =>
            if !Second(at).Comma? || (|at| > 2 && at[2].Ellipsis?) then Parsed(([id], [mark]), st', at[1..])
            else
              match ParseMarkedParams(st', at[2..])
              case Fail => Fail
              case Parsed(more, st'', rest) => Parsed(([id] + more.0, [mark] + more.1), st'', rest)
  }

  // Parameters, an ellipsis, the closing parenthesis.
  function ParseFuncParams(syms: seq<string>, ts: seq<Tok>): Parsed<(seq<nat>, seq<ParamMark>, bool)> {
    var st := State(map[], [], syms);
    if Front(ts).Ellipsis? then
      if Second(ts).RP? then Parsed(([], [], true), st, ts[2..]) else Fail
    else if Front(ts).RP? then Parsed(([], [], false), st, ts[1..])
    else
      match ParseMarkedParams(st, ts)
      case Fail => Fail
      case Parsed(params, st', rest) =>
        if |params.0| > 64 then Fail
        else if Front(rest).Comma? then
          if |rest| >= 3 && rest[1].Ellipsis? && rest[2].RP? then Parsed((params.0, params.1, true), st', rest[3..]) else Fail
        else if Front(rest).RP? then Parsed((params.0, params.1, false), st', rest[1..]) else Fail
  }

  // From the return type on.
  function ParseFunc(funcs: map<string, nat>, syms: seq<string>, ts: seq<Tok>): FuncResult {
    if |ts| < 3 || TypeOfTok(ts[0]) < 0 || !ts[1].Symbol? || !ts[2].LP? then BadFunc
    else
      match ParseFuncParams(syms, ts[3..])
      case Fail => BadFunc
      case Parsed(params, st, rest) =>
        match TakeFuncMarks(rest)
        case NoClause => BadFunc
        case Clause(marks, at) =>
          if !Front(at).LB? then BadFunc
          else ParseFuncBody(funcs, Header(TypeOfTok(ts[0]), TokName(ts[1]), params.2, params.1, marks), params.0, st, at[1..])
  }

  // After the opening brace.
  function ParseFuncBody(funcs: map<string, nat>, h: Header, params: seq<nat>, st: State, body: seq<Tok>): FuncResult {
    var named := st.(syms := Inserted(st.syms, h.name));
    match Prescan(body, [])
    case BadLabels => BadFunc
    case Labels(names) =>
      if names == [] then BadFunc
      else
        match ParseBlocks(Known(Numbered(names), funcs), named, body)
        case Fail => BadFunc
        case Parsed(blocks, st', rest) =>
          if exists b :: 0 <= b < |blocks| && !BlockResolves(st', blocks[b]) then BadFunc
          else
            FuncResult(ParsedFunc(h, params, seq(|blocks|, b requires 0 <= b < |blocks| => ResolveBlock(st', blocks[b])), st'.types),
                       st'.syms, rest)
  }
}
