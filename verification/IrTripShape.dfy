/** Printed instructions: what follows is only appended, and nothing in them looks
    like a block header. */
module IrTripShape {
  import opened Ir
  import opened IrNames
  import opened IrTokens
  import opened IrPrint
  import opened IrTripScan
  import Verifier

  // --- appending --------------------------------------------------------------------------

  lemma MemoryJoin(m: ModuleNames, f: Func, inst: Inst, a: seq<Tok>, b: seq<Tok>)
    requires Shaped(inst)
    ensures MemoryBody(m, f, inst, a + b) == MemoryBody(m, f, inst, a) + b
  {
    hide Atom, Typed, AlignClause, EtypeClause, MemFlags, TypeName, OpName, RmwName;
    var op := inst.op;
    ClauseJoin(inst.subop, a, b);
    ClauseJoin(inst.flags, a, b);
    ClauseJoin(inst.flags, EtypeClause(inst.subop, a), b);
    if op == OP_ALLOCA || op == OP_LOAD || op == OP_STORE || op == OP_MEMCPY || op == OP_MEMSET {
      AlignedJoin(m, f, inst, a, b);
    } else {
      OtherMemoryJoin(m, f, inst, a, b);
    }
  }

  lemma AlignedJoin(m: ModuleNames, f: Func, inst: Inst, a: seq<Tok>, b: seq<Tok>)
    requires Shaped(inst) && inst.op in {OP_ALLOCA, OP_LOAD, OP_STORE, OP_MEMCPY, OP_MEMSET}
    ensures MemoryBody(m, f, inst, a + b) == MemoryBody(m, f, inst, a) + b
  {
    hide Atom, Typed, AlignClause, EtypeClause, MemFlags, TypeName, OpName, RmwName;
    var op, etype := inst.op, EtypeClause(inst.subop, a);
    ClauseJoin(inst.subop, a, b);
    ClauseJoin(inst.flags, a, b);
    ClauseJoin(inst.flags, etype, b);
    if op == OP_ALLOCA {
      ClauseJoin(inst.callee, etype, b);
      AtomJoin(m, f, inst.ops[0], AlignClause(inst.callee, etype), b);
    } else if op == OP_LOAD {
      ClauseJoin(inst.callee, MemFlags(inst.flags, etype), b);
      AtomJoin(m, f, inst.ops[0], AlignClause(inst.callee, MemFlags(inst.flags, etype)), b);
    } else if op == OP_STORE {
      ClauseJoin(inst.callee, MemFlags(inst.flags, etype), b);
      var tail := AlignClause(inst.callee, MemFlags(inst.flags, etype));
      AtomJoin(m, f, inst.ops[1], tail, b);
      var more := [Comma] + Atom(m, f, inst.ops[1], tail);
      assert [Comma] + (Atom(m, f, inst.ops[1], tail) + b) == more + b;
      TypedJoin(m, f, inst.ops[0], more, b);
    } else {
      ClauseJoin(inst.callee, MemFlags(inst.flags, a), b);
      TripleJoin(m, f, inst.ops[0], inst.ops[1], inst.ops[2], AlignClause(inst.callee, MemFlags(inst.flags, a)), b);
    }
  }

  lemma OtherMemoryJoin(m: ModuleNames, f: Func, inst: Inst, a: seq<Tok>, b: seq<Tok>)
    requires Shaped(inst) && inst.op !in {OP_ALLOCA, OP_LOAD, OP_STORE, OP_MEMCPY, OP_MEMSET}
    ensures MemoryBody(m, f, inst, a + b) == MemoryBody(m, f, inst, a) + b
  {
    hide Atom, Typed, AlignClause, EtypeClause, MemFlags, TypeName, OpName, RmwName;
    var op := inst.op;
    ClauseJoin(inst.flags, a, b);
    if op == OP_PTRADD {
      PairJoin(m, f, inst.ops[0], inst.ops[1], a, b);
    } else if op == OP_SELECT {
      PairJoin(m, f, inst.ops[1], inst.ops[2], a, b);
      var arms := Atom(m, f, inst.ops[1], [Comma] + Atom(m, f, inst.ops[2], a));
      var more := [Comma, Ident(TypeName(inst.ty))] + arms;
      assert [Comma, Ident(TypeName(inst.ty))] + (arms + b) == more + b;
      AtomJoin(m, f, inst.ops[0], more, b);
    } else if op == OP_VA_START || op == OP_STACKRESTORE {
      AtomJoin(m, f, inst.ops[0], a, b);
    } else if op == OP_ATOMICRMW {
      PairJoin(m, f, inst.ops[0], inst.ops[1], MemFlags(inst.flags, a), b);
    } else if op == OP_CMPXCHG {
      TripleJoin(m, f, inst.ops[0], inst.ops[1], inst.ops[2], MemFlags(inst.flags, a), b);
    }
  }

  lemma CallJoin(m: ModuleNames, f: Func, inst: Inst, a: seq<Tok>, b: seq<Tok>)
    requires Shaped(inst) && inst.op == OP_CALL
    ensures CallToks(m, f, inst, a + b) == CallToks(m, f, inst, a) + b
  {
    hide CalleeToks, CallArgs, Word, TypeName, Has;
    var args := if inst.subop == CALL_INDIRECT then inst.ops[1..] else inst.ops;
    var third := Word(Has(inst.flags, FLAG_NORETURN), "noreturn", a);
    var second := Word(Has(inst.flags, FLAG_VARIADIC), "va", third);
    var first := Word(Has(inst.flags, FLAG_UNPROTOTYPED), "unproto", second);
    WordJoin(Has(inst.flags, FLAG_NORETURN), "noreturn", a, b);
    WordJoin(Has(inst.flags, FLAG_VARIADIC), "va", third, b);
    WordJoin(Has(inst.flags, FLAG_UNPROTOTYPED), "unproto", second, b);
    ItemsJoin(m, f, args, true, first, b);
    var list := [LP] + CallArgs(m, f, args, first);
    assert [LP] + (CallArgs(m, f, args, first) + b) == list + b;
    CalleeJoin(m, f, inst, list, b);
  }

  lemma CalleeJoin(m: ModuleNames, f: Func, inst: Inst, a: seq<Tok>, b: seq<Tok>)
    requires Shaped(inst) && inst.op == OP_CALL
    ensures CalleeToks(m, f, inst, a + b) == CalleeToks(m, f, inst, a) + b
  {
    hide Atom, SymTok, NameAt;
    if inst.subop == CALL_EXTERNAL {
      WordJoin(inst.callee < |m.syms| && inst.callee < |m.attrs| && m.attrs[inst.callee].defKind.FuncDef?, "external",
               [SymTok(NameAt(m.syms, inst.callee))] + a, b);
      assert [SymTok(NameAt(m.syms, inst.callee))] + (a + b) == [SymTok(NameAt(m.syms, inst.callee))] + a + b;
    } else if inst.subop == CALL_INDIRECT {
      AtomJoin(m, f, inst.ops[0], a, b);
      WordJoin(inst.ops[0].kind == OpSymbol, "indirect", Atom(m, f, inst.ops[0], a), b);
    }
  }

  lemma TerminatorJoin(m: ModuleNames, f: Func, inst: Inst, a: seq<Tok>, b: seq<Tok>)
    requires Shaped(inst)
    ensures Terminator(m, f, inst, a + b) == Terminator(m, f, inst, a) + b
  {
    hide Atom, Typed, EdgeToks, Cases, CommaWord, TypeName, Has;
    var op, flow := inst.op, Has(inst.flags, FLAG_FLOW);
    var config := CommaWord(flow, "config", a);
    WordJoin(flow, "config", a, b);
    WordJoin(flow, "defensive", a, b);
    WordJoin(flow, "implicit", a, b);
    if op == OP_BR {
      EdgeJoin(m, f, inst.edges[0], CommaWord(flow, "defensive", a), b);
    } else if op == OP_CONDBR {
      EdgeJoin(m, f, inst.edges[1], config, b);
      var second := [Comma] + EdgeToks(m, f, inst.edges[1], config);
      assert [Comma] + (EdgeToks(m, f, inst.edges[1], config) + b) == second + b;
      EdgeJoin(m, f, inst.edges[0], second, b);
      var first := [Comma] + EdgeToks(m, f, inst.edges[0], second);
      assert [Comma] + (EdgeToks(m, f, inst.edges[0], second) + b) == first + b;
      AtomJoin(m, f, inst.ops[0], first, b);
    } else if op == OP_SWITCH {
      CasesJoin(m, f, inst.edges[1..], config, b);
      var cases := Cases(m, f, inst.edges[1..], config);
      EdgeJoin(m, f, inst.edges[0], cases, b);
      var first := [Comma] + EdgeToks(m, f, inst.edges[0], cases);
      assert [Comma] + (EdgeToks(m, f, inst.edges[0], cases) + b) == first + b;
      AtomJoin(m, f, inst.ops[0], first, b);
    } else if op == IR_RET && |inst.ops| != 0 {
      TypedJoin(m, f, inst.ops[0], CommaWord(flow, "implicit", a), b);
    }
  }

  lemma ArithmeticJoin(m: ModuleNames, f: Func, inst: Inst, a: seq<Tok>, b: seq<Tok>)
    requires Shaped(inst) && (IsBinary(inst.op) || inst.op == IR_ICMP || inst.op == IR_FCMP || IsCast(inst.op)
                              || inst.op == OP_FNEG || inst.op == OP_FABS || inst.op == OP_VSPLAT || inst.op == OP_VEXTRACT || IsReduce(inst.op))
    ensures Body(m, f, inst, a + b) == Body(m, f, inst, a) + b
  {
    hide Atom, Typed, CommaWord, TypeName, OpName, IcmpName, FcmpName, Has;
    var op := inst.op;
    if IsBinary(op) {
      WordJoin(Has(inst.flags, FLAG_NSW), "nsw", a, b);
      PairJoin(m, f, inst.ops[0], inst.ops[1], CommaWord(Has(inst.flags, FLAG_NSW), "nsw", a), b);
    } else if op == IR_ICMP {
      WordJoin(Has(inst.flags, FLAG_BOUNDS), "bounds", a, b);
      PairJoin(m, f, inst.ops[0], inst.ops[1], CommaWord(Has(inst.flags, FLAG_BOUNDS), "bounds", a), b);
    } else if op == IR_FCMP {
      PairJoin(m, f, inst.ops[0], inst.ops[1], a, b);
    } else if IsCast(op) {
      var to := [Ident("to"), Ident(TypeName(inst.ty))];
      assert to + (a + b) == to + a + b;
      TypedJoin(m, f, inst.ops[0], to + a, b);
    } else if op == OP_VEXTRACT {
      var lane := [Comma, IntTok(inst.subop)];
      assert lane + (a + b) == lane + a + b;
      AtomJoin(m, f, inst.ops[0], lane + a, b);
    } else {
      AtomJoin(m, f, inst.ops[0], a, b);
      TypedJoin(m, f, inst.ops[0], a, b);
    }
  }

  lemma InstJoin(m: ModuleNames, f: Func, inst: Inst, a: seq<Tok>, b: seq<Tok>)
    requires Shaped(inst)
    ensures InstToks(m, f, inst, a + b) == InstToks(m, f, inst, a) + b
  {
    hide MemoryBody, Terminator, CallToks, Atom, Typed, ValTok, OpName, IcmpName, FcmpName, TypeName, CommaWord, Has;
    if inst.op == OP_CALL {
      CallJoin(m, f, inst, a, b);
    } else if inst.op >= IR_RET {
      TerminatorJoin(m, f, inst, a, b);
    } else if Arithmetic(inst.op) {
      ArithmeticJoin(m, f, inst, a, b);
    } else {
      MemoryJoin(m, f, inst, a, b);
    }
  }

  predicate Arithmetic(op: nat) {
    IsBinary(op) || op == IR_ICMP || op == IR_FCMP || IsCast(op) || op == OP_FNEG || op == OP_FABS || op == OP_VSPLAT || op == OP_VEXTRACT || IsReduce(op)
  }

  // --- tameness ------------------------------------------------------------------------------

  lemma TamePair(m: ModuleNames, f: Func, o: Operand, p: Operand, ts: seq<Tok>)
    requires Tame(ts)
    ensures Tame(Atom(m, f, o, [Comma] + Atom(m, f, p, ts)))
  {
    hide Tame, Atom, HasRP;
    TameAtom(m, f, p, ts);
    TameCons(Comma, Atom(m, f, p, ts));
    TameAtom(m, f, o, [Comma] + Atom(m, f, p, ts));
  }

  lemma TameTriple(m: ModuleNames, f: Func, o: Operand, p: Operand, q: Operand, ts: seq<Tok>)
    requires Tame(ts)
    ensures Tame(Atom(m, f, o, [Comma] + Atom(m, f, p, [Comma] + Atom(m, f, q, ts))))
  {
    hide Tame, Atom, HasRP;
    TameAtom(m, f, q, ts);
    TameCons(Comma, Atom(m, f, q, ts));
    TamePair(m, f, o, p, [Comma] + Atom(m, f, q, ts));
  }

  lemma TameArithmetic(m: ModuleNames, f: Func, inst: Inst, ts: seq<Tok>)
    requires Shaped(inst) && Tame(ts) && Arithmetic(inst.op)
    ensures Tame(Body(m, f, inst, ts))
  {
    hide Tame, HasRP, Atom, Typed, CommaWord, TypeName, OpName, IcmpName, FcmpName, Has;
    var op := inst.op;
    if IsBinary(op) {
      var tail := CommaWord(Has(inst.flags, FLAG_NSW), "nsw", ts);
      TameWord(Has(inst.flags, FLAG_NSW), "nsw", ts);
      TamePair(m, f, inst.ops[0], inst.ops[1], tail);
      TameRun([Ident(OpName(op)), Ident(TypeName(inst.ty))], Atom(m, f, inst.ops[0], [Comma] + Atom(m, f, inst.ops[1], tail)));
    } else if op == IR_ICMP {
      var tail := CommaWord(Has(inst.flags, FLAG_BOUNDS), "bounds", ts);
      TameWord(Has(inst.flags, FLAG_BOUNDS), "bounds", ts);
      TamePair(m, f, inst.ops[0], inst.ops[1], tail);
      TameRun([Ident("icmp"), Ident(IcmpName(inst.subop)), Ident(TypeName(inst.ops[0].ty))],
              Atom(m, f, inst.ops[0], [Comma] + Atom(m, f, inst.ops[1], tail)));
    } else if op == IR_FCMP {
      TamePair(m, f, inst.ops[0], inst.ops[1], ts);
      TameRun([Ident("fcmp"), Ident(FcmpName(inst.subop)), Ident(TypeName(inst.ops[0].ty))],
              Atom(m, f, inst.ops[0], [Comma] + Atom(m, f, inst.ops[1], ts)));
    } else {
      TameUnary(m, f, inst, ts);
    }
  }

  lemma TameUnary(m: ModuleNames, f: Func, inst: Inst, ts: seq<Tok>)
    requires Shaped(inst) && Tame(ts) && Arithmetic(inst.op) && !IsBinary(inst.op) && inst.op != IR_ICMP && inst.op != IR_FCMP
    ensures Tame(Body(m, f, inst, ts))
  {
    hide Tame, HasRP, Atom, Typed, TypeName, OpName;
    var op, o := inst.op, inst.ops[0];
    if IsCast(op) {
      var to := [Ident("to"), Ident(TypeName(inst.ty))];
      TameRun(to, ts);
      TameTyped(m, f, o, to + ts);
      TameRun([Ident(OpName(op))], Typed(m, f, o, to + ts));
    } else if op == OP_VSPLAT {
      TameTyped(m, f, o, ts);
      TameRun([Ident("vsplat"), Ident(TypeName(inst.ty))], Typed(m, f, o, ts));
    } else if op == OP_VEXTRACT {
      var lane := [Comma, IntTok(inst.subop)];
      TameRun(lane, ts);
      TameAtom(m, f, o, lane + ts);
      TameRun([Ident("vextract"), Ident(TypeName(o.ty))], Atom(m, f, o, lane + ts));
    } else {
      TameAtom(m, f, o, ts);
      TameRun([Ident(OpName(op)), Ident(TypeName(o.ty))], Atom(m, f, o, ts));
      TameRun([Ident(OpName(op)), Ident(TypeName(inst.ty))], Atom(m, f, o, ts));
    }
  }

  lemma TameAligned(m: ModuleNames, f: Func, inst: Inst, ts: seq<Tok>)
    requires Shaped(inst) && Tame(ts) && inst.op in {OP_ALLOCA, OP_LOAD, OP_STORE, OP_MEMCPY, OP_MEMSET}
    ensures Tame(MemoryBody(m, f, inst, ts))
  {
    hide Tame, HasRP, Atom, Typed, AlignClause, EtypeClause, MemFlags, TypeName, OpName;
    var op, etype := inst.op, EtypeClause(inst.subop, ts);
    TameClauses(inst.subop, ts);
    TameClauses(inst.flags, ts);
    TameClauses(inst.flags, etype);
    if op == OP_ALLOCA {
      TameClauses(inst.callee, etype);
      TameAtom(m, f, inst.ops[0], AlignClause(inst.callee, etype));
      TameRun([Ident("alloca")], Atom(m, f, inst.ops[0], AlignClause(inst.callee, etype)));
    } else if op == OP_LOAD {
      TameClauses(inst.callee, MemFlags(inst.flags, etype));
      var tail := AlignClause(inst.callee, MemFlags(inst.flags, etype));
      TameAtom(m, f, inst.ops[0], tail);
      TameRun([Ident("load"), Ident(TypeName(inst.ty)), Comma], Atom(m, f, inst.ops[0], tail));
    } else if op == OP_STORE {
      TameClauses(inst.callee, MemFlags(inst.flags, etype));
      var tail := AlignClause(inst.callee, MemFlags(inst.flags, etype));
      TameAtom(m, f, inst.ops[1], tail);
      TameCons(Comma, Atom(m, f, inst.ops[1], tail));
      TameTyped(m, f, inst.ops[0], [Comma] + Atom(m, f, inst.ops[1], tail));
      TameRun([Ident("store")], Typed(m, f, inst.ops[0], [Comma] + Atom(m, f, inst.ops[1], tail)));
    } else {
      TameClauses(inst.callee, MemFlags(inst.flags, ts));
      var tail := AlignClause(inst.callee, MemFlags(inst.flags, ts));
      TameTriple(m, f, inst.ops[0], inst.ops[1], inst.ops[2], tail);
      TameRun([Ident(OpName(op))], Atom(m, f, inst.ops[0], [Comma] + Atom(m, f, inst.ops[1], [Comma] + Atom(m, f, inst.ops[2], tail))));
    }
  }

  lemma TameOther(m: ModuleNames, f: Func, inst: Inst, ts: seq<Tok>)
    requires Shaped(inst) && Tame(ts) && inst.op !in {OP_ALLOCA, OP_LOAD, OP_STORE, OP_MEMCPY, OP_MEMSET}
    ensures Tame(MemoryBody(m, f, inst, ts))
  {
    hide Tame, HasRP, Atom, Typed, MemFlags, TypeName, OpName, RmwName;
    var op, flags := inst.op, MemFlags(inst.flags, ts);
    TameClauses(inst.flags, ts);
    if op == OP_PTRADD {
      TamePair(m, f, inst.ops[0], inst.ops[1], ts);
      TameRun([Ident("ptradd")], Atom(m, f, inst.ops[0], [Comma] + Atom(m, f, inst.ops[1], ts)));
    } else if op == OP_SELECT {
      TamePair(m, f, inst.ops[1], inst.ops[2], ts);
      var arms := Atom(m, f, inst.ops[1], [Comma] + Atom(m, f, inst.ops[2], ts));
      var more := [Comma, Ident(TypeName(inst.ty))] + arms;
      TameRun([Comma, Ident(TypeName(inst.ty))], arms);
      TameAtom(m, f, inst.ops[0], more);
      TameRun([Ident("select")], Atom(m, f, inst.ops[0], more));
    } else if op == OP_VA_START || op == OP_STACKRESTORE {
      TameAtom(m, f, inst.ops[0], ts);
      TameRun([Ident("va_start")], Atom(m, f, inst.ops[0], ts));
      TameRun([Ident("stackrestore")], Atom(m, f, inst.ops[0], ts));
    } else if op == OP_STACKSAVE {
      TameRun([Ident("stacksave")], ts);
    } else if op == OP_ATOMICRMW {
      TamePair(m, f, inst.ops[0], inst.ops[1], flags);
      TameRun([Ident("atomicrmw"), Ident(RmwName(inst.subop)), Ident(TypeName(inst.ty))],
              Atom(m, f, inst.ops[0], [Comma] + Atom(m, f, inst.ops[1], flags)));
    } else if op == OP_CMPXCHG {
      TameTriple(m, f, inst.ops[0], inst.ops[1], inst.ops[2], flags);
      TameRun([Ident("cmpxchg"), Ident(TypeName(inst.ty))],
              Atom(m, f, inst.ops[0], [Comma] + Atom(m, f, inst.ops[1], [Comma] + Atom(m, f, inst.ops[2], flags))));
    }
  }

  lemma TameCall(m: ModuleNames, f: Func, inst: Inst, ts: seq<Tok>)
    requires Shaped(inst) && inst.op == OP_CALL && Tame(ts)
    ensures Tame(CallToks(m, f, inst, ts))
  {
    hide Tame, HasRP, CalleeToks, CallArgs, Word, TypeName, Has;
    var args := if inst.subop == CALL_INDIRECT then inst.ops[1..] else inst.ops;
    var third := Word(Has(inst.flags, FLAG_NORETURN), "noreturn", ts);
    var second := Word(Has(inst.flags, FLAG_VARIADIC), "va", third);
    var first := Word(Has(inst.flags, FLAG_UNPROTOTYPED), "unproto", second);
    TameWord(Has(inst.flags, FLAG_NORETURN), "noreturn", ts);
    TameWord(Has(inst.flags, FLAG_VARIADIC), "va", third);
    TameWord(Has(inst.flags, FLAG_UNPROTOTYPED), "unproto", second);
    TameItems(m, f, args, true, first);
    TameFacts(CallArgs(m, f, args, first));
    TameCallee(m, f, inst, CallArgs(m, f, args, first));
    TameRun([Ident("call"), Ident(TypeName(inst.ty))], CalleeToks(m, f, inst, [LP] + CallArgs(m, f, args, first)));
  }

  // The callee and the opening parenthesis after it.
  lemma TameCallee(m: ModuleNames, f: Func, inst: Inst, ts: seq<Tok>)
    requires Shaped(inst) && inst.op == OP_CALL && Quiet(ts) && HasRP(ts)
    ensures Tame(CalleeToks(m, f, inst, [LP] + ts))
  {
    hide Tame, HasRP, Quiet, SymTok, NameAt;
    if inst.subop == CALL_INDIRECT {
      TamePointer(m, f, inst.ops[0], ts);
      TameWord(inst.ops[0].kind == OpSymbol, "indirect", Atom(m, f, inst.ops[0], [LP] + ts));
    } else {
      var name := if inst.subop == CALL_INTERNAL then NameAt(m.funcs, inst.callee) else NameAt(m.syms, inst.callee);
      SymTokIs(name);
      TameParen(SymTok(name), ts);
      assert [SymTok(name)] + ([LP] + ts) == [SymTok(name), LP] + ts;
      TameWord(inst.callee < |m.syms| && inst.callee < |m.attrs| && m.attrs[inst.callee].defKind.FuncDef?, "external", [SymTok(name), LP] + ts);
    }
  }

  lemma TamePointer(m: ModuleNames, f: Func, o: Operand, ts: seq<Tok>)
    requires Quiet(ts) && HasRP(ts)
    ensures Tame(Atom(m, f, o, [LP] + ts))
  {
    hide Tame, HasRP, Quiet, SymTok, NameAt, ValTok;
    QuietLP(ts);
    var all := [LP] + ts;
    if o.kind == OpFconst && o.ty != TYPE_F32 && o.ty != TYPE_F64 {
      TameHexPair(HexTok(o.b, if o.ty == TYPE_F80 then 4 else 16), HexTok(o.a, 16), ts);
    } else if o.kind == OpSymbol && o.a != 0 {
      SymTokIs(NameAt(m.syms, o.sym));
      TameLP(IntTok(o.a), ts);
      var t := SymTok(NameAt(m.syms, o.sym));
      TameCons(t, [IntTok(o.a), LP] + ts);
      assert [t] + ([IntTok(o.a), LP] + ts) == [t, IntTok(o.a)] + all;
    } else {
      var t := OneTokAtom(m, f, o, all);
      TameLP(t, ts);
      assert [t, LP] + ts == [t] + all;
    }
  }

  lemma OneTokAtom(m: ModuleNames, f: Func, o: Operand, rest: seq<Tok>) returns (t: Tok)
    requires o.kind == OpFconst ==> o.ty == TYPE_F32 || o.ty == TYPE_F64
    requires o.kind == OpSymbol ==> o.a == 0
    ensures Atom(m, f, o, rest) == [t] + rest && PlainTok(t) && !t.RP?
  {
    hide SymTok, NameAt, ValTok;
    SymTokIs(NameAt(m.syms, o.sym));
    ValTokShape(f, Verifier.UsedId(o));
    t := Atom(m, f, o, rest)[0];
  }

  lemma QuietLP(ts: seq<Tok>)
    requires Quiet(ts)
    ensures Quiet([LP] + ts)
  {
    QuietCons(LP, ts);
  }

  lemma TameLP(t: Tok, ts: seq<Tok>)
    requires PlainTok(t) && !t.RP? && Quiet(ts) && HasRP(ts)
    ensures Tame([t, LP] + ts)
  {
    QuietCons(LP, ts);
    var inner := [LP] + ts;
    var j :| 0 <= j < |ts| && ts[j].RP?;
    assert inner[j + 1].RP?;
    QuietCons(t, inner);
    assert [t] + inner == [t, LP] + ts;
  }

  lemma TameHexPair(a: Tok, b: Tok, ts: seq<Tok>)
    requires a.HexTok? && b.HexTok? && Quiet(ts) && HasRP(ts)
    ensures Tame([a, Colon, b] + ([LP] + ts))
  {
    TameLP(b, ts);
    var after := [b, LP] + ts;
    QuietCons(Colon, after);
    QuietCons(a, [Colon] + after);
    assert [a] + ([Colon] + after) == [a, Colon, b] + ([LP] + ts);
  }

  lemma TameTerminator(m: ModuleNames, f: Func, inst: Inst, ts: seq<Tok>)
    requires Shaped(inst) && Tame(ts)
    ensures Tame(Terminator(m, f, inst, ts))
  {
    hide Tame, HasRP, Atom, Typed, EdgeToks, Cases, CommaWord, TypeName, Has;
    var op, flow := inst.op, Has(inst.flags, FLAG_FLOW);
    var config, implicit := CommaWord(flow, "config", ts), CommaWord(flow, "implicit", ts);
    TameWord(flow, "config", ts);
    TameWord(flow, "defensive", ts);
    TameWord(flow, "implicit", ts);
    if op == OP_BR {
      TameEdge(m, f, inst.edges[0], CommaWord(flow, "defensive", ts));
      TameRun([Ident("br")], EdgeToks(m, f, inst.edges[0], CommaWord(flow, "defensive", ts)));
    } else if op == OP_CONDBR {
      TameEdge(m, f, inst.edges[1], config);
      var second := [Comma] + EdgeToks(m, f, inst.edges[1], config);
      TameCons(Comma, EdgeToks(m, f, inst.edges[1], config));
      TameEdge(m, f, inst.edges[0], second);
      var first := [Comma] + EdgeToks(m, f, inst.edges[0], second);
      TameCons(Comma, EdgeToks(m, f, inst.edges[0], second));
      TameAtom(m, f, inst.ops[0], first);
      TameRun([Ident("condbr")], Atom(m, f, inst.ops[0], first));
    } else if op == OP_SWITCH {
      TameCases(m, f, inst.edges[1..], config);
      var cases := Cases(m, f, inst.edges[1..], config);
      TameEdge(m, f, inst.edges[0], cases);
      var first := [Comma] + EdgeToks(m, f, inst.edges[0], cases);
      TameCons(Comma, EdgeToks(m, f, inst.edges[0], cases));
      TameAtom(m, f, inst.ops[0], first);
      TameRun([Ident("switch"), Ident(TypeName(inst.ops[0].ty))], Atom(m, f, inst.ops[0], first));
    } else if op == IR_RET {
      TameRun([Ident("ret")], implicit);
      if |inst.ops| != 0 {
        TameTyped(m, f, inst.ops[0], implicit);
        TameRun([Ident("ret")], Typed(m, f, inst.ops[0], implicit));
      }
    } else {
      TameRun([Ident("unreachable")], ts);
    }
  }

  lemma TameInst(m: ModuleNames, f: Func, inst: Inst, ts: seq<Tok>)
    requires Shaped(inst) && Tame(ts)
    ensures Tame(InstToks(m, f, inst, ts))
  {
    hide Tame, HasRP, MemoryBody, Terminator, CallToks, ValTok;
    TameBody(m, f, inst, ts);
    if inst.result != 0 {
      ValTokShape(f, inst.result);
      TameRun([ValTok(f, inst.result), Eq], Body(m, f, inst, ts));
    }
  }

  lemma TameBody(m: ModuleNames, f: Func, inst: Inst, ts: seq<Tok>)
    requires Shaped(inst) && Tame(ts)
    ensures Tame(Body(m, f, inst, ts))
  {
    hide Tame, HasRP, MemoryBody, Terminator, CallToks, Atom, Typed, CommaWord;
    if inst.op == OP_CALL {
      TameCall(m, f, inst, ts);
    } else if inst.op >= IR_RET {
      TameTerminator(m, f, inst, ts);
    } else if Arithmetic(inst.op) {
      TameArithmetic(m, f, inst, ts);
    } else if inst.op in {OP_ALLOCA, OP_LOAD, OP_STORE, OP_MEMCPY, OP_MEMSET} {
      TameAligned(m, f, inst, ts);
    } else {
      TameOther(m, f, inst, ts);
    }
  }
}
