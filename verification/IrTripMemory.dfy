/** Reading back printed memory operations, atomics and calls. */
module IrTripMemory {
  import opened Ir
  import opened IrNames
  import opened IrTokens
  import opened IrPrint
  import opened IrParse
  import opened IrTripOperands
  import opened IrTripLists
  import opened IrTripInsts

  // --- clauses ----------------------------------------------------------------------------

  predicate MemFlagsOk(flags: nat) {
    flags == FlagIf(Has(flags, FLAG_VOLATILE), FLAG_VOLATILE) + FlagIf(Has(flags, FLAG_SEQ_CST), FLAG_SEQ_CST)
           + FlagIf(Has(flags, FLAG_SELF_INIT), FLAG_SELF_INIT)
  }

  // What follows the flags is not another flag.
  predicate NoMemFlag(rest: seq<Tok>) {
    !Front(rest).Comma? || MemFlagOf(Second(rest)) == 0
  }

  lemma MemFlagAdds(flags: nat, k: nat, on: bool, word: string, flag: nat, rest: seq<Tok>)
    requires flags < Power2(k) && flag == Power2(k) && MemFlagOf(Ident(word)) == flag
    ensures ParseMemFlags(CommaWord(on, word, rest), flags) == ParseMemFlags(rest, flags + FlagIf(on, flag))
  {
    hide BitOr;
    FlagAdds(flags, k, flag);
    assert on ==> CommaWord(on, word, rest)[2..] == rest;
  }

  lemma MemFlagsBack(flags: nat, rest: seq<Tok>)
    requires MemFlagsOk(flags) && NoMemFlag(rest)
    ensures ParseMemFlags(MemFlags(flags, rest), 0) == (flags, rest)
  {
    hide CommaWord, ParseMemFlags, Has;
    assert Power2(0) == 1 && Power2(1) == 2 && Power2(6) == 64;
    var v, q, i := Has(flags, FLAG_VOLATILE), Has(flags, FLAG_SEQ_CST), Has(flags, FLAG_SELF_INIT);
    var third := CommaWord(i, "self_init", rest);
    MemFlagAdds(0, 0, v, "volatile", FLAG_VOLATILE, CommaWord(q, "seq_cst", third));
    MemFlagAdds(FlagIf(v, 1), 1, q, "seq_cst", FLAG_SEQ_CST, third);
    MemFlagAdds(FlagIf(v, 1) + FlagIf(q, 2), 6, i, "self_init", FLAG_SELF_INIT, rest);
    NoMoreFlags(rest, flags);
  }

  lemma NoMoreFlags(rest: seq<Tok>, flags: nat)
    requires NoMemFlag(rest)
    ensures ParseMemFlags(rest, flags) == (flags, rest)
  {
  }

  lemma EtypeBack(etype: nat, rest: seq<Tok>)
    requires etype < 13 && NoComma(rest)
    ensures ParseEtype(EtypeClause(etype, rest), 0) == Clause(etype, rest) && NoMemFlag(EtypeClause(etype, rest))
    ensures NoInt(rest) ==> NoInt(EtypeClause(etype, rest))
  {
    hide EtypeName, EtypeNumber;
    EtypeNameBack(etype);
    assert etype != 0 ==> EtypeClause(etype, rest)[3..] == rest;
  }

  lemma AlignBackClause(align: nat, rest: seq<Tok>)
    requires align < 0x1_0000_0000
    ensures ParseAlign(AlignClause(align, rest)) == Clause(align, rest)
  {
    assert AlignClause(align, rest)[3..] == rest;
  }

  predicate TailOk(inst: Inst) {
    && inst.callee < 0x1_0000_0000 && inst.edges == []
    && if inst.op == OP_MEMCPY || inst.op == OP_MEMSET then inst.subop == ETYPE_CHAR && MemFlagsOk(inst.flags)
       else inst.subop < 13 && if inst.op == OP_ALLOCA then inst.flags == 0 else MemFlagsOk(inst.flags)
  }

  function Tail(inst: Inst, rest: seq<Tok>): seq<Tok> {
    AlignClause(inst.callee,
      if inst.op == OP_MEMCPY || inst.op == OP_MEMSET then MemFlags(inst.flags, rest)
      else if inst.op == OP_ALLOCA then EtypeClause(inst.subop, rest)
      else MemFlags(inst.flags, EtypeClause(inst.subop, rest)))
  }

  lemma TailBackClauses(inst: Inst, ops: seq<Slot>, st: State, rest: seq<Tok>)
    requires TailOk(inst) && NoComma(rest)
    ensures ParseMemoryTail(inst.op, inst.ty, inst.result, ops, st, Tail(inst, rest)) ==
              Finish(inst.op, inst.ty, inst.subop, inst.flags, inst.result, inst.callee, ops, st, rest)
  {
    hide MemFlags, EtypeClause, ParseMemFlags, ParseEtype, AlignClause, ParseAlign, MemFlagsOk;
    if inst.op == OP_MEMCPY || inst.op == OP_MEMSET {
      AlignBackClause(inst.callee, MemFlags(inst.flags, rest));
      NoEtype(inst.flags, rest);
      NotFlag(rest);
      MemFlagsBack(inst.flags, rest);
    } else {
      EtypeBack(inst.subop, rest);
      var etype := EtypeClause(inst.subop, rest);
      AlignBackClause(inst.callee, if inst.op == OP_ALLOCA then etype else MemFlags(inst.flags, etype));
      if inst.op != OP_ALLOCA {
        MemFlagsBack(inst.flags, etype);
      }
    }
  }

  lemma NotFlag(rest: seq<Tok>)
    requires NoComma(rest)
    ensures NoMemFlag(rest)
  {
  }

  lemma NoEtype(flags: nat, rest: seq<Tok>)
    requires NoComma(rest)
    ensures ParseEtype(MemFlags(flags, rest), ETYPE_CHAR) == Clause(ETYPE_CHAR, MemFlags(flags, rest))
  {
    hide Has;
  }

  // --- alloca, load, store, memcpy, memset -----------------------------------------------------

  predicate MemoryOk(m: ModuleNames, f: Func, inst: Inst) {
    && Shaped(inst) && inst.op in {OP_ALLOCA, OP_LOAD, OP_STORE, OP_MEMCPY, OP_MEMSET} && TailOk(inst) && inst.ty <= TYPE_VOID
    && if inst.op == OP_ALLOCA then inst.ty == TYPE_PTR && inst.result != 0 && BareAtom(m, f, inst.ops[0], TYPE_I64)
       else if inst.op == OP_LOAD then inst.result != 0 && BareAtom(m, f, inst.ops[0], TYPE_PTR)
       else
         && inst.ty == TYPE_VOID && inst.result == 0
         && if inst.op == OP_STORE then BareAtom(m, f, inst.ops[0], inst.ops[0].ty) && BareAtom(m, f, inst.ops[1], TYPE_PTR)
            else
              && BareAtom(m, f, inst.ops[0], TYPE_PTR)
              && BareAtom(m, f, inst.ops[1], if inst.op == OP_MEMCPY then TYPE_PTR else TYPE_I32)
              && BareAtom(m, f, inst.ops[2], TYPE_I64)
  }

  lemma TailNoInt(inst: Inst, rest: seq<Tok>)
    ensures NoInt(Tail(inst, rest))
  {
  }

  lemma MemoryBack(m: ModuleNames, f: Func, n: nat, inst: Inst, rest: seq<Tok>)
    requires Ready0(m, f, n) && ResultOk(f, inst, n) && MemoryOk(m, f, inst) && NoComma(rest)
    ensures var p := ParseMemory(inst.op, StateAt(m, f, n), ResultOf(inst), Body(m, f, inst, rest)[1..]);
            p.Parsed? && p.rest == rest && p.st == StateAt(m, f, After(inst, n)) && InstLeads(p.value, DropInst(inst, After(inst, n)))
  {
    hide ParseMemory, Body, Canonical, BareAtom, Leads, NamesTo, Drop, StateAt, TailOk, Tail;
    if inst.op == OP_ALLOCA || inst.op == OP_LOAD {
      OneOperandBack(m, f, n, inst, rest);
    } else if inst.op == OP_STORE {
      StoreBack(m, f, n, inst, rest);
    } else {
      CopyBack(m, f, n, inst, rest);
    }
  }

  lemma OneOperandBack(m: ModuleNames, f: Func, n: nat, inst: Inst, rest: seq<Tok>)
    requires Ready0(m, f, n) && ResultOk(f, inst, n) && MemoryOk(m, f, inst) && NoComma(rest) && (inst.op == OP_ALLOCA || inst.op == OP_LOAD)
    ensures var p := ParseMemory(inst.op, StateAt(m, f, n), ResultOf(inst), Body(m, f, inst, rest)[1..]);
            p.Parsed? && p.rest == rest && p.st == StateAt(m, f, After(inst, n)) && InstLeads(p.value, DropInst(inst, After(inst, n)))
  {
    hide ParseAtom, Atom, Canonical, BareAtom, Leads, NamesTo, Drop, StateAt, Append, TypeName, TypeNumber, TailOk, ParseMemoryTail,
         MemFlags, EtypeClause, AlignClause;
    var n', tail, body := After(inst, n), Tail(inst, rest), Body(m, f, inst, rest)[1..];
    var o, ty := inst.ops[0], if inst.op == OP_ALLOCA then TYPE_I64 else TYPE_PTR;
    TailIs(inst);
    AppendBack(m, f, inst, n);
    TypeTokBack(inst.ty);
    TailNoInt(inst, rest);
    BareAtomBack(m, f, n', n', o, ty, tail);
    if inst.op == OP_ALLOCA {
      assert body == Atom(m, f, o, tail);
    } else {
      assert body[2..] == Atom(m, f, o, tail);
    }
    TailBackClauses(inst, [ParseAtom(StateAt(m, f, n'), ty, Atom(m, f, o, tail)).value], StateAt(m, f, n'), rest);
  }

  lemma TailIs(inst: Inst)
    requires TailOk(inst)
    ensures inst.edges == []
  {
  }

  lemma StoreBack(m: ModuleNames, f: Func, n: nat, inst: Inst, rest: seq<Tok>)
    requires Ready0(m, f, n) && ResultOk(f, inst, n) && MemoryOk(m, f, inst) && NoComma(rest) && inst.op == OP_STORE
    ensures var p := ParseMemory(inst.op, StateAt(m, f, n), ResultOf(inst), Body(m, f, inst, rest)[1..]);
            p.Parsed? && p.rest == rest && p.st == StateAt(m, f, After(inst, n)) && InstLeads(p.value, DropInst(inst, After(inst, n)))
  {
    hide ParseAtom, ParseTyped, Typed, Atom, Canonical, BareAtom, Leads, NamesTo, Drop, StateAt, Append, TypeName, TypeNumber, TailOk,
         ParseMemoryTail, MemFlags, EtypeClause, AlignClause;
    var tail := Tail(inst, rest);
    var more := [Comma] + Atom(m, f, inst.ops[1], tail);
    TailIs(inst);
    TailNoInt(inst, rest);
    assert Body(m, f, inst, rest)[1..] == Typed(m, f, inst.ops[0], more);
    BareTypedBack(m, f, n, n, inst.ops[0], more);
    assert more[1..] == Atom(m, f, inst.ops[1], tail);
    BareAtomBack(m, f, n, n, inst.ops[1], TYPE_PTR, tail);
    var a := ParseTyped(StateAt(m, f, n), Typed(m, f, inst.ops[0], more)).value;
    var b := ParseAtom(StateAt(m, f, n), TYPE_PTR, Atom(m, f, inst.ops[1], tail)).value;
    TailBackClauses(inst, [a, b], StateAt(m, f, n), rest);
    assert inst.ops == [inst.ops[0], inst.ops[1]];
  }

  lemma CopyBack(m: ModuleNames, f: Func, n: nat, inst: Inst, rest: seq<Tok>)
    requires Ready0(m, f, n) && ResultOk(f, inst, n) && MemoryOk(m, f, inst) && NoComma(rest) && (inst.op == OP_MEMCPY || inst.op == OP_MEMSET)
    ensures var p := ParseMemory(inst.op, StateAt(m, f, n), ResultOf(inst), Body(m, f, inst, rest)[1..]);
            p.Parsed? && p.rest == rest && p.st == StateAt(m, f, After(inst, n)) && InstLeads(p.value, DropInst(inst, After(inst, n)))
  {
    hide ParseTriple, Atom, Canonical, BareAtom, Leads, NamesTo, Drop, StateAt, Append, TypeName, TypeNumber, TailOk, OpName,
         ParseMemoryTail, MemFlags, EtypeClause, AlignClause;
    var tail, ty := Tail(inst, rest), if inst.op == OP_MEMCPY then TYPE_PTR else TYPE_I32;
    var a, b, c := inst.ops[0], inst.ops[1], inst.ops[2];
    TailIs(inst);
    TailNoInt(inst, rest);
    TripleBack(m, f, n, n, a, b, c, TYPE_PTR, ty, TYPE_I64, tail);
    var list := Atom(m, f, a, [Comma] + Atom(m, f, b, [Comma] + Atom(m, f, c, tail)));
    assert Body(m, f, inst, rest)[1..] == list;
    TailBackClauses(inst, ParseTriple(StateAt(m, f, n), TYPE_PTR, ty, TYPE_I64, list).value, StateAt(m, f, n), rest);
    assert inst.ops == [a, b, c];
  }

  // --- atomics and address arithmetic -------------------------------------------------------------

  predicate AtomicOk(m: ModuleNames, f: Func, inst: Inst) {
    && Shaped(inst) && (inst.op == OP_ATOMICRMW || inst.op == OP_CMPXCHG) && inst.callee == 0 && inst.result != 0
    && MemFlagsOk(inst.flags) && inst.ty <= TYPE_VOID && inst.subop < (if inst.op == OP_CMPXCHG then 1 else 6)
    && BareAtom(m, f, inst.ops[0], TYPE_PTR) && BareAtom(m, f, inst.ops[1], inst.ty)
    && (inst.op == OP_CMPXCHG ==> BareAtom(m, f, inst.ops[2], inst.ty))
  }

  lemma AtomicBack(m: ModuleNames, f: Func, n: nat, inst: Inst, rest: seq<Tok>)
    requires Ready0(m, f, n) && ResultOk(f, inst, n) && AtomicOk(m, f, inst) && NoComma(rest) && NoInt(rest)
    ensures var p := ParseAtomic(inst.op, StateAt(m, f, n), ResultOf(inst), Body(m, f, inst, rest)[1..]);
            p.Parsed? && p.rest == rest && p.st == StateAt(m, f, After(inst, n)) && InstLeads(p.value, DropInst(inst, After(inst, n)))
  {
    hide ParsePair, ParseTriple, Atom, Canonical, BareAtom, Leads, NamesTo, Drop, StateAt, Append, TypeName, TypeNumber, RmwName, RmwNumber,
         MemFlags, MemFlagsOk, ParseMemFlags;
    var n', tail, body := After(inst, n), MemFlags(inst.flags, rest), Body(m, f, inst, rest)[1..];
    AppendBack(m, f, inst, n);
    TypeTokBack(inst.ty);
    NotFlag(rest);
    MemFlagsBack(inst.flags, rest);
    FlagsNoInt(inst.flags, rest);
    if inst.op == OP_CMPXCHG {
      TripleBack(m, f, n', n', inst.ops[0], inst.ops[1], inst.ops[2], TYPE_PTR, inst.ty, inst.ty, tail);
      assert body[1..] == Atom(m, f, inst.ops[0], [Comma] + Atom(m, f, inst.ops[1], [Comma] + Atom(m, f, inst.ops[2], tail)));
      assert inst.ops == [inst.ops[0], inst.ops[1], inst.ops[2]];
    } else {
      RmwNameBack(inst.subop);
      PairBack(m, f, n', n', inst.ops[0], inst.ops[1], TYPE_PTR, inst.ty, tail);
      assert body[1..][1..] == Atom(m, f, inst.ops[0], [Comma] + Atom(m, f, inst.ops[1], tail));
      assert inst.ops == [inst.ops[0], inst.ops[1]];
    }
  }

  lemma FlagsNoInt(flags: nat, rest: seq<Tok>)
    requires NoInt(rest)
    ensures NoInt(MemFlags(flags, rest))
  {
    hide Has;
  }

  predicate PtraddOk(m: ModuleNames, f: Func, inst: Inst) {
    && Shaped(inst) && inst.op == OP_PTRADD && PlainFields(inst) && inst.flags == 0 && inst.result != 0 && inst.ty == TYPE_PTR
    && BareAtom(m, f, inst.ops[0], TYPE_PTR) && BareAtom(m, f, inst.ops[1], TYPE_I64)
  }

  lemma PtraddBack(m: ModuleNames, f: Func, n: nat, inst: Inst, rest: seq<Tok>)
    requires Ready0(m, f, n) && ResultOk(f, inst, n) && PtraddOk(m, f, inst) && NoInt(rest)
    ensures var p := ParsePtradd(StateAt(m, f, n), ResultOf(inst), Body(m, f, inst, rest)[1..]);
            p.Parsed? && p.rest == rest && p.st == StateAt(m, f, After(inst, n)) && InstLeads(p.value, DropInst(inst, After(inst, n)))
  {
    hide ParsePair, Atom, Canonical, BareAtom, Leads, NamesTo, Drop, StateAt, Append;
    var n' := After(inst, n);
    AppendBack(m, f, inst, n);
    PairBack(m, f, n', n', inst.ops[0], inst.ops[1], TYPE_PTR, TYPE_I64, rest);
    assert Body(m, f, inst, rest)[1..] == Atom(m, f, inst.ops[0], [Comma] + Atom(m, f, inst.ops[1], rest));
    assert inst.ops == [inst.ops[0], inst.ops[1]];
  }

  predicate StackOk(m: ModuleNames, f: Func, inst: Inst) {
    && Shaped(inst) && PlainFields(inst) && inst.flags == 0
    && if inst.op == OP_STACKSAVE then inst.ty == TYPE_PTR && inst.result != 0
       else (inst.op == OP_VA_START || inst.op == OP_STACKRESTORE) && inst.ty == TYPE_VOID && inst.result == 0
            && BareAtom(m, f, inst.ops[0], TYPE_PTR)
  }

  // --- calls ----------------------------------------------------------------------------------------

  // The scan ahead numbered the functions, and nothing else.
  ghost predicate FuncsKnown(m: ModuleNames, k: Known) {
    && (forall i | 0 <= i < |m.funcs| :: m.funcs[i] in k.funcs && k.funcs[m.funcs[i]] == i + 1)
    && |m.attrs| == |m.syms|
    && forall s | 0 <= s < |m.syms| && m.syms[s] in k.funcs :: m.syms[s] in m.funcs
  }

  // There is a body of that name, but the symbol is recorded as something else, a
  // global of the same name.
  predicate Hidden(m: ModuleNames, s: nat) {
    s < |m.syms| && m.syms[s] in m.funcs && !(s < |m.attrs| && m.attrs[s].defKind.FuncDef?)
  }

  predicate CallFlagsOk(flags: nat) {
    flags == FlagIf(Has(flags, FLAG_UNPROTOTYPED), FLAG_UNPROTOTYPED) + FlagIf(Has(flags, FLAG_VARIADIC), FLAG_VARIADIC)
           + FlagIf(Has(flags, FLAG_NORETURN), FLAG_NORETURN)
  }

  function ArgsOf(inst: Inst): seq<Operand>
    requires inst.subop == CALL_INDIRECT ==> |inst.ops| >= 1
  {
    if inst.subop == CALL_INDIRECT then inst.ops[1..] else inst.ops
  }

  predicate CallOk(m: ModuleNames, f: Func, inst: Inst) {
    && Shaped(inst) && inst.op == OP_CALL && CallFlagsOk(inst.flags) && inst.ty <= TYPE_VOID
    && (inst.result != 0 <==> inst.ty != TYPE_VOID)
    && ItemsOk(m, f, ArgsOf(inst), true)
    && match inst.subop
       case 0 => inst.callee < |m.funcs|
       case 1 => inst.callee < |m.syms| && !Hidden(m, inst.callee)
       case _ => inst.callee == 0 && BareAtom(m, f, inst.ops[0], TYPE_PTR)
                 && (inst.ops[0].kind == OpValue || inst.ops[0].kind == OpSymbol || inst.ops[0].kind == OpUndef || inst.ops[0].kind == OpIconst)
  }

  // The next line starts with a result or an opcode.
  predicate StartsInst(rest: seq<Tok>) {
    Front(rest).Pident? || (Front(rest).Ident? && OpNumber(Front(rest).text) >= 0)
  }

  lemma NoCallWord(rest: seq<Tok>)
    requires StartsInst(rest)
    ensures !IsWord(Front(rest), "unproto") && !IsWord(Front(rest), "va") && !IsWord(Front(rest), "noreturn")
  {
    assert OpNumber("unproto") == -1 && OpNumber("va") == -1 && OpNumber("noreturn") == -1;
  }

  function CallTail(inst: Inst, rest: seq<Tok>): seq<Tok> {
    Word(Has(inst.flags, FLAG_UNPROTOTYPED), "unproto",
      Word(Has(inst.flags, FLAG_VARIADIC), "va", Word(Has(inst.flags, FLAG_NORETURN), "noreturn", rest)))
  }

  lemma CallTailBack(inst: Inst, rest: seq<Tok>)
    requires CallFlagsOk(inst.flags) && StartsInst(rest)
    ensures CallFlags(CallTail(inst, rest)) == (inst.flags, rest)
  {
    hide OpNumber, Has;
    NoCallWord(rest);
  }

  // How the callee was printed is how it is read.
  lemma CalleeBack(m: ModuleNames, f: Func, k: Known, n: nat, n': nat, inst: Inst, rest: seq<Tok>)
    requires Ready0(m, f, n) && n' <= |f.vals| && FuncsKnown(m, k) && CallOk(m, f, inst) && NoInt(rest)
    ensures var p := ParseCallee(StateAt(m, f, n), CalleeToks(m, f, inst, rest));
            && p.Parsed? && p.rest == rest && p.st == StateAt(m, f, n)
            && CalleeRef(k, StateAt(m, f, n'), p.value) == (inst.subop, inst.callee, StateAt(m, f, n'))
            && (p.value.Through? <==> inst.subop == CALL_INDIRECT)
            && (inst.subop == CALL_INDIRECT ==> Leads(p.value.pointer, Drop(inst.ops[0], n')))
  {
    hide ParseAtom, Atom, Canonical, BareAtom, Leads, NamesTo, Drop, ItemsOk, CallFlagsOk;
    if inst.subop == CALL_INTERNAL {
      SymTokBack(m.funcs[inst.callee]);
      assert CalleeToks(m, f, inst, rest)[1..] == rest;
    } else if inst.subop == CALL_EXTERNAL {
      ExternalBack(m, f, k, n, n', inst, rest);
    } else {
      PointerBack(m, f, n, n', inst, rest);
    }
  }

  lemma ExternalBack(m: ModuleNames, f: Func, k: Known, n: nat, n': nat, inst: Inst, rest: seq<Tok>)
    requires Ready0(m, f, n) && n' <= |f.vals| && FuncsKnown(m, k) && CallOk(m, f, inst) && inst.subop == CALL_EXTERNAL
    ensures var p := ParseCallee(StateAt(m, f, n), CalleeToks(m, f, inst, rest));
            && p.Parsed? && p.rest == rest && p.st == StateAt(m, f, n) && p.value.Direct?
            && CalleeRef(k, StateAt(m, f, n'), p.value) == (inst.subop, inst.callee, StateAt(m, f, n'))
  {
    hide ParseAtom, Atom, Canonical, BareAtom, NamesTo, ItemsOk, CallFlagsOk;
    var name, ts := m.syms[inst.callee], CalleeToks(m, f, inst, rest);
    SymTokBack(name);
    SymbolFound(m.syms, inst.callee);
    var after := [SymTok(name)] + rest;
    assert after[1..] == rest;
    if m.attrs[inst.callee].defKind.FuncDef? {
      assert ts[1..] == after;
    } else {
      assert ts == after && name !in k.funcs;
    }
  }

  // A direct external call is marked when its name has a body, unless the symbol is
  // recorded as something else: it is read as external exactly when it is not.
  lemma ExternalReadExactly(m: ModuleNames, f: Func, k: Known, st: State, inst: Inst, rest: seq<Tok>)
    requires FuncsKnown(m, k) && Shaped(inst) && inst.op == OP_CALL && inst.subop == CALL_EXTERNAL && inst.callee < |m.syms|
    ensures var p := ParseCallee(st, CalleeToks(m, f, inst, rest));
            p.Parsed? && p.rest == rest && p.st == st && (CalleeRef(k, st, p.value).0 == CALL_EXTERNAL <==> !Hidden(m, inst.callee))
  {
    var name, ts := m.syms[inst.callee], CalleeToks(m, f, inst, rest);
    SymTokBack(name);
    var after := [SymTok(name)] + rest;
    assert after[1..] == rest;
    if m.attrs[inst.callee].defKind.FuncDef? {
      assert ts[1..] == after;
    } else {
      assert ts == after;
      if Hidden(m, inst.callee) {
        var i :| 0 <= i < |m.funcs| && m.funcs[i] == name;
        assert k.funcs[name] == i + 1;
      }
    }
  }

  lemma PointerBack(m: ModuleNames, f: Func, n: nat, n': nat, inst: Inst, rest: seq<Tok>)
    requires Ready0(m, f, n) && CallOk(m, f, inst) && inst.subop == CALL_INDIRECT && NoInt(rest)
    ensures var p := ParseCallee(StateAt(m, f, n), CalleeToks(m, f, inst, rest));
            p.Parsed? && p.rest == rest && p.st == StateAt(m, f, n) && p.value.Through? && Leads(p.value.pointer, Drop(inst.ops[0], n'))
  {
    hide ParseAtom, Canonical, BareAtom, Leads, NamesTo, Drop, ItemsOk, CallFlagsOk, StateAt;
    var o, ts := inst.ops[0], CalleeToks(m, f, inst, rest);
    var atom := Atom(m, f, o, rest);
    BareAtomBack(m, f, n, n', o, TYPE_PTR, rest);
    PointerFront(m, f, o, rest);
    if o.kind == OpSymbol {
      assert ts[1..] == atom;
    }
  }

  lemma PointerFront(m: ModuleNames, f: Func, o: Operand, rest: seq<Tok>)
    requires o.kind == OpValue || o.kind == OpSymbol || o.kind == OpUndef || o.kind == OpIconst
    ensures var t := Front(Atom(m, f, o, rest));
            !IsWord(t, "external") && !IsWord(t, "indirect") && (t.Symbol? <==> o.kind == OpSymbol)
  {
  }

  lemma ArgsLead(m: ModuleNames, f: Func, ss: seq<Slot>, os: seq<Operand>, n: nat)
    requires AllStand(ss, os, n) && ItemsOk(m, f, os, true)
    ensures AllLead(ss, DropAll(os, n))
  {
    hide Stands, Leads, ArgOk;
    forall i | 0 <= i < |os|
      ensures Leads(ss[i], Drop(os[i], n))
    {
      assert ItemOk(m, f, os[i], true);
      ArgLeads(m, f, ss[i], os[i], n);
    }
  }

  lemma ArgLeads(m: ModuleNames, f: Func, s: Slot, o: Operand, n: nat)
    requires Stands(s, o, n) && ArgOk(m, f, o)
    ensures Leads(s, Drop(o, n))
  {
  }

  lemma CallBack(m: ModuleNames, f: Func, k: Known, n: nat, inst: Inst, rest: seq<Tok>)
    requires Ready0(m, f, n) && ResultOk(f, inst, n) && FuncsKnown(m, k) && CallOk(m, f, inst) && StartsInst(rest)
    ensures var p := ParseCall(k, StateAt(m, f, n), ResultOf(inst), Body(m, f, inst, rest)[1..]);
            p.Parsed? && p.rest == rest && p.st == StateAt(m, f, After(inst, n)) && InstLeads(p.value, DropInst(inst, After(inst, n)))
  {
    hide ParseCallee, CalleeToks, CalleeRef, ParseItems, CallArgs, CountArgs, Canonical, BareAtom, Leads, NamesTo, Drop, StateAt, Append,
         TypeName, TypeNumber, Word, CallFlags, ItemsOk, CallFlagsOk, FuncsKnown, AllStand, StartsInst, ArgsOf;
    var n', tail, args := After(inst, n), CallTail(inst, rest), ArgsOf(inst);
    var list := [LP] + CallArgs(m, f, args, tail);
    CallBody(m, f, inst, rest);
    TypeTokBack(inst.ty);
    AppendBack(m, f, inst, n);
    CalleeBack(m, f, k, n, n', inst, list);
    assert list[1..] == CallArgs(m, f, args, tail);
    DefinedAt(m, f, n');
    ArgsBack(m, f, n', StateAt(m, f, n'), args, true, tail);
    var ss := ParseItems(StateAt(m, f, n'), CallArgs(m, f, args, tail), |args|, true, true).value;
    ArgsLead(m, f, ss, args, n');
    CallTailBack(inst, rest);
    CallOps(inst, n');
  }

  lemma DefinedAt(m: ModuleNames, f: Func, n: nat)
    requires n <= |f.vals|
    ensures Defined(m, f, n, StateAt(m, f, n))
  {
  }

  lemma CallBody(m: ModuleNames, f: Func, inst: Inst, rest: seq<Tok>)
    requires CallOk(m, f, inst)
    ensures var body := Body(m, f, inst, rest)[1..];
            && Front(body) == Ident(TypeName(inst.ty))
            && body[1..] == CalleeToks(m, f, inst, [LP] + CallArgs(m, f, ArgsOf(inst), CallTail(inst, rest)))
  {
    hide CalleeToks, CallArgs, TypeName, Has;
  }

  lemma CallOps(inst: Inst, n: nat)
    requires inst.subop == CALL_INDIRECT ==> |inst.ops| >= 1
    ensures DropAll(inst.ops, n) == if inst.subop == CALL_INDIRECT then [Drop(inst.ops[0], n)] + DropAll(ArgsOf(inst), n) else DropAll(ArgsOf(inst), n)
  {
  }
}
