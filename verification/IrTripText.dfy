/** The round trip through the printed text itself: every module fit to print whose
    names can be lexed. */
module IrTripText {
  import opened Ir
  import opened IrNames
  import opened IrTokens
  import opened IrPrint
  import opened IrRecords
  import opened IrMarks
  import opened IrSpell
  import opened IrText
  import opened IrTripBlocks
  import opened IrTripLists
  import opened IrTripMarks
  import opened IrTripMemory
  import opened IrTripOperands
  import opened IrTripShape
  import IrLex
  import Verifier

  // --- words ---------------------------------------------------------------------------------

  // Names of symbols, functions and blocks are made of the characters of a word.
  predicate NamesLex(m: ModuleNames, f: Func) {
    && (forall s | 0 <= s < |m.syms| :: NameLexes(m.syms[s]))
    && (forall i | 0 <= i < |m.funcs| :: NameLexes(m.funcs[i]))
    && forall b | 0 <= b < |f.blocks| :: Lexes(Ident(f.blocks[b].name))
  }

  lemma OpLexes(op: nat)
    ensures Lexes(Ident(OpName(op)))
  {
    hide OpName;
    if op < 20 {
      LowOpLexes(op);
    } else if op < 39 {
      MiddleOpLexes(op);
    } else if op < 48 {
      HighOpLexes(op);
    } else {
      LastOpLexes(op);
    }
  }

  lemma LowOpLexes(op: nat)
    requires op < 20
    ensures Lexes(Ident(OpName(op)))
  {
  }

  lemma MiddleOpLexes(op: nat)
    requires 20 <= op < 39
    ensures Lexes(Ident(OpName(op)))
  {
  }

  lemma HighOpLexes(op: nat)
    requires 39 <= op < 48
    ensures Lexes(Ident(OpName(op)))
  {
  }

  lemma LastOpLexes(op: nat)
    requires 48 <= op
    ensures Lexes(Ident(OpName(op)))
  {
  }

  lemma EtypeLexes(k: nat)
    ensures Lexes(Ident(EtypeName(k)))
  {
  }

  lemma PredicateLexes(k: nat)
    ensures Lexes(Ident(IcmpName(k))) && Lexes(Ident(FcmpName(k))) && Lexes(Ident(RmwName(k)))
  {
  }

  lemma LexFront(front: seq<Tok>, rest: seq<Tok>)
    requires AllLex(front) && AllLex(rest)
    ensures AllLex(front + rest)
  {
    hide Lexes;
  }

  lemma WordLex(on: bool, word: string, rest: seq<Tok>)
    requires Lexes(Ident(word)) && AllLex(rest)
    ensures AllLex(Word(on, word, rest)) && AllLex(CommaWord(on, word, rest))
  {
    PunctuationLexes();
    hide Lexes;
  }

  // --- operands --------------------------------------------------------------------------------

  // Every number of the operand fits its width, and what it names is there.
  predicate OperandFits(m: ModuleNames, o: Operand) {
    match o.kind
    case OpValue => true
    case OpIconst => o.a < U64
    case OpFconst => o.a < U64 && if o.ty == TYPE_F80 then o.b < 0x1_0000 else o.b < U64
    case OpSymbol => o.sym < |m.syms| && o.a < U64
    case OpUndef => true
    case OpNone => false
  }

  predicate OperandsFit(m: ModuleNames, os: seq<Operand>) {
    forall i | 0 <= i < |os| :: OperandFits(m, os[i])
  }

  lemma AtomFits(m: ModuleNames, f: Func, o: Operand, ty: nat)
    requires AtomOk(m, f, o, ty)
    ensures OperandFits(m, o)
  {
  }

  lemma AtomLexes(m: ModuleNames, f: Func, o: Operand, rest: seq<Tok>)
    requires OperandFits(m, o) && NamesLex(m, f) && AllLex(rest)
    ensures AllLex(Atom(m, f, o, rest))
  {
    hide ValTok, SymTok;
    ValTokLexes(f, Verifier.UsedId(o));
    if o.kind == OpFconst {
      FloatLexes(o);
    } else if o.kind == OpSymbol {
      assert NameLexes(m.syms[o.sym]);
    }
  }

  lemma FloatLexes(o: Operand)
    requires o.a < U64 && if o.ty == TYPE_F80 then o.b < 0x1_0000 else o.b < U64
    ensures Lexes(HexTok(o.a, 16)) && Lexes(HexTok(o.a % 0x1_0000_0000, 8)) && Lexes(HexTok(o.b, if o.ty == TYPE_F80 then 4 else 16))
  {
    assert IrLex.Power16(4) == 0x1_0000;
    assert IrLex.Power16(8) == 0x1_0000 * IrLex.Power16(4) by { PowerSum(4); }
    assert IrLex.Power16(12) == 0x1_0000 * IrLex.Power16(8) by { PowerSum(8); }
    assert IrLex.Power16(16) == 0x1_0000 * IrLex.Power16(12) by { PowerSum(12); }
  }

  lemma PowerSum(n: nat)
    ensures IrLex.Power16(n + 4) == 0x1_0000 * IrLex.Power16(n)
  {
    assert IrLex.Power16(n + 4) == 16 * IrLex.Power16(n + 3);
    assert IrLex.Power16(n + 3) == 16 * IrLex.Power16(n + 2);
    assert IrLex.Power16(n + 2) == 16 * IrLex.Power16(n + 1);
  }

  lemma TypedLexes(m: ModuleNames, f: Func, o: Operand, rest: seq<Tok>)
    requires OperandFits(m, o) && NamesLex(m, f) && AllLex(rest)
    ensures AllLex(Typed(m, f, o, rest))
  {
    AtomLexes(m, f, o, rest);
    TypeLexes(o.ty);
    hide Atom, OperandFits, NamesLex, TypeName, Lexes;
  }

  lemma ArgWordsLex(b: nat, rest: seq<Tok>)
    requires AllLex(rest)
    ensures AllLex(KindToks(b, rest)) && AllLex(AlignToks(b, rest))
  {
    KindLexes(ArgKind(b));
    ArgNumbersFit(b);
    hide KindName, ArgKind, ArgSize, ArgLeaves, StackAlign;
  }

  lemma KindLexes(kind: nat)
    ensures Lexes(Ident(KindName(kind)))
  {
  }

  lemma ArgNumbersFit(b: nat)
    ensures ArgSize(b) < U64 && ArgLeaves(b) < U64 && StackAlign(b) < U64
  {
  }

  lemma MarksLex(o: Operand, rest: seq<Tok>)
    requires AllLex(rest)
    ensures AllLex(ArgMarks(o, rest))
  {
    WordLexes("even");
    WordLexes("onstack");
    WordLexes("zext");
    WordLexes("sext");
    WordLexes("anon");
    hide AllLex, Lexes, Word, KindToks, AlignToks, Has, EvenGpr;
    var b := Annotation(o);
    WordLex(EvenGpr(b), "even", rest);
    ArgWordsLex(b, TailEven(o, rest));
    WordLex(Has(o.argflags, ARG_ONSTACK), "onstack", TailAlign(o, rest));
    WordLex(Has(o.argflags, ARG_ZEXT), "zext", TailOnstack(o, rest));
    WordLex(Has(o.argflags, ARG_SEXT), "sext", TailZext(o, rest));
    WordLex(Has(o.argflags, ARG_ANON), "anon", TailSext(o, rest));
    ArgWordsLex(b, TailAnon(o, rest));
  }

  lemma ItemLexes(m: ModuleNames, f: Func, o: Operand, call: bool, rest: seq<Tok>)
    requires OperandFits(m, o) && NamesLex(m, f) && AllLex(rest)
    ensures AllLex(Item(m, f, o, call, rest))
  {
    hide OperandFits, NamesLex, AllLex, Typed, ArgMarks;
    if call {
      MarksLex(o, rest);
      TypedLexes(m, f, o, ArgMarks(o, rest));
    } else {
      TypedLexes(m, f, o, rest);
    }
  }

  lemma {:induction false} ItemsLex(m: ModuleNames, f: Func, os: seq<Operand>, call: bool, rest: seq<Tok>)
    requires OperandsFit(m, os) && NamesLex(m, f) && AllLex(rest)
    ensures AllLex(Items(m, f, os, call, rest))
    decreases |os|
  {
    PunctuationLexes();
    hide OperandFits, NamesLex, Items, Item, Lexes;
    ItemsUnfold(m, f, os, call, rest);
    LexFront([RP], rest);
    if |os| == 1 {
      ItemLexes(m, f, os[0], call, [RP] + rest);
    } else if |os| > 1 {
      ItemsLex(m, f, os[1..], call, rest);
      LexFront([Comma], Items(m, f, os[1..], call, rest));
      ItemLexes(m, f, os[0], call, [Comma] + Items(m, f, os[1..], call, rest));
    }
  }

  // --- edges -------------------------------------------------------------------------------------

  predicate EdgeFits(m: ModuleNames, f: Func, e: Edge) {
    0 < e.target <= |f.blocks| && OperandsFit(m, e.args)
  }

  predicate EdgesFit(m: ModuleNames, f: Func, es: seq<Edge>) {
    forall i | 0 <= i < |es| :: EdgeFits(m, f, es[i])
  }

  lemma EdgeLexes(m: ModuleNames, f: Func, e: Edge, rest: seq<Tok>)
    requires EdgeFits(m, f, e) && NamesLex(m, f) && AllLex(rest)
    ensures AllLex(EdgeToks(m, f, e, rest))
  {
    PunctuationLexes();
    assert Lexes(Ident(f.blocks[e.target - 1].name));
    hide OperandsFit, TypedList, Lexes;
    ItemsLex(m, f, e.args, false, rest);
    LexFront([Ident(BlockName(f, e.target)), LP], TypedList(m, f, e.args, rest));
  }

  lemma {:induction false} CasesLex(m: ModuleNames, f: Func, es: seq<Edge>, rest: seq<Tok>)
    requires EdgesFit(m, f, es) && NamesLex(m, f) && AllLex(rest)
    ensures AllLex(Cases(m, f, es, rest))
    decreases |es|
  {
    hide EdgeFits, NamesLex, EdgeToks;
    if es != [] {
      CasesLex(m, f, es[1..], rest);
      EdgeLexes(m, f, es[0], Cases(m, f, es[1..], rest));
      LexFront([Comma, IntTok(Bits(es[0].caseVal)), Colon], EdgeToks(m, f, es[0], Cases(m, f, es[1..], rest)));
    }
  }

  // --- instructions --------------------------------------------------------------------------------

  predicate InstFits(m: ModuleNames, f: Func, inst: Inst) {
    && Shaped(inst) && OperandsFit(m, inst.ops) && EdgesFit(m, f, inst.edges)
    && if inst.op == OP_CALL then
         (inst.subop == CALL_INTERNAL ==> inst.callee < |m.funcs|) && (inst.subop == CALL_EXTERNAL ==> inst.callee < |m.syms|)
       else inst.callee < U64 && inst.subop < U64
  }

  lemma InstOkFits(m: ModuleNames, f: Func, inst: Inst)
    requires InstOk(m, f, inst)
    ensures InstFits(m, f, inst)
  {
    hide AtomOk, OperandFits, FlowOk, CallFlagsOk, MemFlagsOk, AnnotationOk;
    forall o: Operand, ty | AtomOk(m, f, o, ty)
      ensures OperandFits(m, o)
    {
      AtomFits(m, f, o, ty);
    }
    if inst.op == OP_CALL {
      CallFits(m, f, inst);
    } else if inst.op >= IR_RET {
      TerminatorFits(m, f, inst);
    }
  }

  lemma ItemsFit(m: ModuleNames, f: Func, os: seq<Operand>, call: bool)
    requires ItemsOk(m, f, os, call)
    ensures OperandsFit(m, os)
  {
    hide AtomOk, OperandFits, AnnotationOk, Has;
    forall i | 0 <= i < |os|
      ensures OperandFits(m, os[i])
    {
      assert ItemOk(m, f, os[i], call);
      AtomFits(m, f, os[i], os[i].ty);
    }
  }

  lemma CallFits(m: ModuleNames, f: Func, inst: Inst)
    requires CallOk(m, f, inst)
    ensures InstFits(m, f, inst)
  {
    hide AtomOk, ItemsOk, CallFlagsOk;
    ItemsFit(m, f, ArgsOf(inst), true);
    if inst.subop == CALL_INDIRECT {
      AtomFits(m, f, inst.ops[0], TYPE_PTR);
      assert forall i | 1 <= i < |inst.ops| :: inst.ops[i] == inst.ops[1..][i - 1];
    }
  }

  lemma TerminatorFits(m: ModuleNames, f: Func, inst: Inst)
    requires TerminatorOk(m, f, inst)
    ensures InstFits(m, f, inst)
  {
    hide AtomOk, ItemsOk, FlowOk, OperandFits;
    forall i | 0 <= i < |inst.edges|
      ensures EdgeFits(m, f, inst.edges[i])
    {
      assert EdgeOk(m, f, inst.edges[i]);
      ItemsFit(m, f, inst.edges[i].args, false);
    }
    if |inst.ops| == 1 {
      AtomFits(m, f, inst.ops[0], if inst.op == OP_CONDBR then TYPE_I32 else inst.ops[0].ty);
    }
  }

  lemma PairLexes(m: ModuleNames, f: Func, o: Operand, p: Operand, rest: seq<Tok>)
    requires OperandFits(m, o) && OperandFits(m, p) && NamesLex(m, f) && AllLex(rest)
    ensures AllLex(Atom(m, f, o, [Comma] + Atom(m, f, p, rest)))
  {
    PunctuationLexes();
    hide Atom, OperandFits, NamesLex, Lexes;
    AtomLexes(m, f, p, rest);
    LexFront([Comma], Atom(m, f, p, rest));
    AtomLexes(m, f, o, [Comma] + Atom(m, f, p, rest));
  }

  lemma TripleLexes(m: ModuleNames, f: Func, o: Operand, p: Operand, q: Operand, rest: seq<Tok>)
    requires OperandFits(m, o) && OperandFits(m, p) && OperandFits(m, q) && NamesLex(m, f) && AllLex(rest)
    ensures AllLex(Atom(m, f, o, [Comma] + Atom(m, f, p, [Comma] + Atom(m, f, q, rest))))
  {
    PunctuationLexes();
    hide Atom, OperandFits, NamesLex, Lexes;
    AtomLexes(m, f, q, rest);
    LexFront([Comma], Atom(m, f, q, rest));
    PairLexes(m, f, o, p, [Comma] + Atom(m, f, q, rest));
  }

  lemma ClausesLex(v: nat, rest: seq<Tok>)
    requires AllLex(rest)
    ensures (v < U64 ==> AllLex(AlignClause(v, rest))) && AllLex(EtypeClause(v, rest)) && AllLex(MemFlags(v, rest))
  {
    hide Lexes, CommaWord, Has, EtypeName;
    ClauseWordsLex(v);
    EtypeLexes(v);
    WordLex(Has(v, FLAG_SELF_INIT), "self_init", rest);
    var third := CommaWord(Has(v, FLAG_SELF_INIT), "self_init", rest);
    WordLex(Has(v, FLAG_SEQ_CST), "seq_cst", third);
    WordLex(Has(v, FLAG_VOLATILE), "volatile", CommaWord(Has(v, FLAG_SEQ_CST), "seq_cst", third));
  }

  lemma ClauseWordsLex(v: nat)
    ensures Lexes(Ident("align")) && Lexes(Ident("etype")) && Lexes(Comma) && (v < U64 ==> Lexes(IntTok(v)))
    ensures Lexes(Ident("volatile")) && Lexes(Ident("seq_cst")) && Lexes(Ident("self_init"))
  {
  }

  lemma ArithmeticLexes(m: ModuleNames, f: Func, inst: Inst, rest: seq<Tok>)
    requires InstFits(m, f, inst) && NamesLex(m, f) && AllLex(rest) && Arithmetic(inst.op)
    ensures AllLex(Body(m, f, inst, rest))
  {
    OpLexes(inst.op);
    PredicateLexes(inst.subop);
    TypeLexes(inst.ty);
    TypeLexes(inst.ops[0].ty);
    WordLexes("nsw");
    WordLexes("bounds");
    WordLexes("icmp");
    WordLexes("fcmp");
    hide OperandFits, NamesLex, AllLex, Lexes, Atom, Typed, CommaWord, TypeName, OpName, IcmpName, FcmpName, Has;
    var op := inst.op;
    if IsBinary(op) {
      var tail := CommaWord(Has(inst.flags, FLAG_NSW), "nsw", rest);
      WordLex(Has(inst.flags, FLAG_NSW), "nsw", rest);
      PairLexes(m, f, inst.ops[0], inst.ops[1], tail);
      TwoWords(OpName(op), TypeName(inst.ty), Atom(m, f, inst.ops[0], [Comma] + Atom(m, f, inst.ops[1], tail)));
    } else if op == IR_ICMP {
      var tail := CommaWord(Has(inst.flags, FLAG_BOUNDS), "bounds", rest);
      WordLex(Has(inst.flags, FLAG_BOUNDS), "bounds", rest);
      PairLexes(m, f, inst.ops[0], inst.ops[1], tail);
      ThreeWords("icmp", IcmpName(inst.subop), TypeName(inst.ops[0].ty), Atom(m, f, inst.ops[0], [Comma] + Atom(m, f, inst.ops[1], tail)));
    } else if op == IR_FCMP {
      PairLexes(m, f, inst.ops[0], inst.ops[1], rest);
      ThreeWords("fcmp", FcmpName(inst.subop), TypeName(inst.ops[0].ty), Atom(m, f, inst.ops[0], [Comma] + Atom(m, f, inst.ops[1], rest)));
    } else {
      UnaryLexes(m, f, inst, rest);
    }
  }

  lemma OneWord(a: string, rest: seq<Tok>)
    requires Lexes(Ident(a)) && AllLex(rest)
    ensures AllLex([Ident(a)] + rest)
  {
    hide Lexes;
  }

  lemma TwoWords(a: string, b: string, rest: seq<Tok>)
    requires Lexes(Ident(a)) && Lexes(Ident(b)) && AllLex(rest)
    ensures AllLex([Ident(a), Ident(b)] + rest)
  {
    hide Lexes;
  }

  lemma ThreeWords(a: string, b: string, c: string, rest: seq<Tok>)
    requires Lexes(Ident(a)) && Lexes(Ident(b)) && Lexes(Ident(c)) && AllLex(rest)
    ensures AllLex([Ident(a), Ident(b), Ident(c)] + rest)
  {
    hide Lexes;
  }

  lemma UnaryLexes(m: ModuleNames, f: Func, inst: Inst, rest: seq<Tok>)
    requires InstFits(m, f, inst) && NamesLex(m, f) && AllLex(rest)
    requires Arithmetic(inst.op) && !IsBinary(inst.op) && inst.op != IR_ICMP && inst.op != IR_FCMP
    ensures AllLex(Body(m, f, inst, rest))
  {
    OpLexes(inst.op);
    TypeLexes(inst.ty);
    TypeLexes(inst.ops[0].ty);
    WordLexes("to");
    WordLexes("vsplat");
    WordLexes("vextract");
    assert AllLex([Comma, IntTok(inst.subop)]);
    hide OperandFits, NamesLex, AllLex, Lexes, Atom, Typed, TypeName, OpName;
    var op, o := inst.op, inst.ops[0];
    if IsCast(op) {
      TwoWords("to", TypeName(inst.ty), rest);
      TypedLexes(m, f, o, [Ident("to"), Ident(TypeName(inst.ty))] + rest);
      OneWord(OpName(op), Typed(m, f, o, [Ident("to"), Ident(TypeName(inst.ty))] + rest));
    } else if op == OP_VSPLAT {
      TypedLexes(m, f, o, rest);
      TwoWords("vsplat", TypeName(inst.ty), Typed(m, f, o, rest));
    } else if op == OP_VEXTRACT {
      var lane := [Comma, IntTok(inst.subop)];
      LexFront(lane, rest);
      AtomLexes(m, f, o, lane + rest);
      TwoWords("vextract", TypeName(o.ty), Atom(m, f, o, lane + rest));
    } else {
      AtomLexes(m, f, o, rest);
      TwoWords(OpName(op), TypeName(o.ty), Atom(m, f, o, rest));
      TwoWords(OpName(op), TypeName(inst.ty), Atom(m, f, o, rest));
    }
  }

  lemma AlignedLexes(m: ModuleNames, f: Func, inst: Inst, rest: seq<Tok>)
    requires InstFits(m, f, inst) && NamesLex(m, f) && AllLex(rest) && inst.op in {OP_ALLOCA, OP_LOAD, OP_STORE, OP_MEMCPY, OP_MEMSET}
    ensures AllLex(MemoryBody(m, f, inst, rest))
  {
    if inst.op == OP_LOAD || inst.op == OP_STORE {
      LoadStoreLexes(m, f, inst, rest);
    } else {
      OpLexes(inst.op);
      WordLexes("alloca");
      hide OperandFits, NamesLex, AllLex, Lexes, Atom, AlignClause, EtypeClause, MemFlags, OpName;
      if inst.op == OP_ALLOCA {
        ClausesLex(inst.subop, rest);
        ClausesLex(inst.callee, EtypeClause(inst.subop, rest));
        var tail := AlignClause(inst.callee, EtypeClause(inst.subop, rest));
        AtomLexes(m, f, inst.ops[0], tail);
        OneWord("alloca", Atom(m, f, inst.ops[0], tail));
      } else {
        ClausesLex(inst.flags, rest);
        ClausesLex(inst.callee, MemFlags(inst.flags, rest));
        var tail := AlignClause(inst.callee, MemFlags(inst.flags, rest));
        TripleLexes(m, f, inst.ops[0], inst.ops[1], inst.ops[2], tail);
        OneWord(OpName(inst.op), Atom(m, f, inst.ops[0], [Comma] + Atom(m, f, inst.ops[1], [Comma] + Atom(m, f, inst.ops[2], tail))));
      }
    }
  }

  lemma LoadStoreLexes(m: ModuleNames, f: Func, inst: Inst, rest: seq<Tok>)
    requires InstFits(m, f, inst) && NamesLex(m, f) && AllLex(rest) && (inst.op == OP_LOAD || inst.op == OP_STORE)
    ensures AllLex(MemoryBody(m, f, inst, rest))
  {
    hide OperandFits, NamesLex, AllLex, Lexes, Atom, Typed, AlignClause, EtypeClause, MemFlags, TypeName;
    var etype := EtypeClause(inst.subop, rest);
    ClausesLex(inst.subop, rest);
    ClausesLex(inst.flags, etype);
    ClausesLex(inst.callee, MemFlags(inst.flags, etype));
    var tail := AlignClause(inst.callee, MemFlags(inst.flags, etype));
    if inst.op == OP_LOAD {
      LoadLexes(m, f, inst.ty, inst.ops[0], tail);
    } else {
      StoreLexes(m, f, inst.ops[0], inst.ops[1], tail);
    }
  }

  lemma LoadLexes(m: ModuleNames, f: Func, ty: nat, o: Operand, tail: seq<Tok>)
    requires OperandFits(m, o) && NamesLex(m, f) && AllLex(tail)
    ensures AllLex([Ident("load"), Ident(TypeName(ty)), Comma] + Atom(m, f, o, tail))
  {
    TypeLexes(ty);
    WordLexes("load");
    hide OperandFits, NamesLex, AllLex, Lexes, Atom, TypeName;
    var atom := Atom(m, f, o, tail);
    AtomLexes(m, f, o, tail);
    LexComma(atom);
    TwoWords("load", TypeName(ty), [Comma] + atom);
    assert [Ident("load"), Ident(TypeName(ty)), Comma] + atom == [Ident("load"), Ident(TypeName(ty))] + ([Comma] + atom);
  }

  lemma StoreLexes(m: ModuleNames, f: Func, o: Operand, p: Operand, tail: seq<Tok>)
    requires OperandFits(m, o) && OperandFits(m, p) && NamesLex(m, f) && AllLex(tail)
    ensures AllLex([Ident("store")] + Typed(m, f, o, [Comma] + Atom(m, f, p, tail)))
  {
    WordLexes("store");
    hide OperandFits, NamesLex, AllLex, Lexes, Atom, Typed;
    var atom := Atom(m, f, p, tail);
    AtomLexes(m, f, p, tail);
    LexComma(atom);
    TypedLexes(m, f, o, [Comma] + atom);
    OneWord("store", Typed(m, f, o, [Comma] + atom));
  }

  lemma LexComma(rest: seq<Tok>)
    requires AllLex(rest)
    ensures AllLex([Comma] + rest)
  {
  }

  lemma OtherLexes(m: ModuleNames, f: Func, inst: Inst, rest: seq<Tok>)
    requires InstFits(m, f, inst) && NamesLex(m, f) && AllLex(rest) && inst.op !in {OP_ALLOCA, OP_LOAD, OP_STORE, OP_MEMCPY, OP_MEMSET}
    ensures AllLex(MemoryBody(m, f, inst, rest))
  {
    OtherWordsLex(inst);
    hide OperandFits, NamesLex, AllLex, Lexes, Atom, MemFlags, TypeName, RmwName;
    var op, flags := inst.op, MemFlags(inst.flags, rest);
    ClausesLex(inst.flags, rest);
    if op == OP_PTRADD {
      PairLexes(m, f, inst.ops[0], inst.ops[1], rest);
      OneWord("ptradd", Atom(m, f, inst.ops[0], [Comma] + Atom(m, f, inst.ops[1], rest)));
    } else if op == OP_SELECT {
      PairLexes(m, f, inst.ops[1], inst.ops[2], rest);
      var arms := Atom(m, f, inst.ops[1], [Comma] + Atom(m, f, inst.ops[2], rest));
      OneWord(TypeName(inst.ty), arms);
      LexComma([Ident(TypeName(inst.ty))] + arms);
      assert [Comma] + ([Ident(TypeName(inst.ty))] + arms) == [Comma, Ident(TypeName(inst.ty))] + arms;
      AtomLexes(m, f, inst.ops[0], [Comma, Ident(TypeName(inst.ty))] + arms);
      OneWord("select", Atom(m, f, inst.ops[0], [Comma, Ident(TypeName(inst.ty))] + arms));
    } else if op == OP_VA_START || op == OP_STACKRESTORE {
      AtomLexes(m, f, inst.ops[0], rest);
      OneWord("va_start", Atom(m, f, inst.ops[0], rest));
      OneWord("stackrestore", Atom(m, f, inst.ops[0], rest));
    } else if op == OP_STACKSAVE {
      OneWord("stacksave", rest);
    } else if op == OP_ATOMICRMW {
      PairLexes(m, f, inst.ops[0], inst.ops[1], flags);
      ThreeWords("atomicrmw", RmwName(inst.subop), TypeName(inst.ty), Atom(m, f, inst.ops[0], [Comma] + Atom(m, f, inst.ops[1], flags)));
    } else if op == OP_CMPXCHG {
      TripleLexes(m, f, inst.ops[0], inst.ops[1], inst.ops[2], flags);
      TwoWords("cmpxchg", TypeName(inst.ty), Atom(m, f, inst.ops[0], [Comma] + Atom(m, f, inst.ops[1], [Comma] + Atom(m, f, inst.ops[2], flags))));
    }
  }

  lemma OtherWordsLex(inst: Inst)
    ensures forall w | w in ["ptradd", "select", "va_start", "stackrestore", "stacksave", "atomicrmw", "cmpxchg"] :: Lexes(Ident(w))
    ensures Lexes(Ident(TypeName(inst.ty))) && Lexes(Ident(RmwName(inst.subop)))
  {
    TypeLexes(inst.ty);
    PredicateLexes(inst.subop);
  }

  lemma CallLexes(m: ModuleNames, f: Func, inst: Inst, rest: seq<Tok>)
    requires InstFits(m, f, inst) && NamesLex(m, f) && AllLex(rest) && inst.op == OP_CALL
    ensures AllLex(CallToks(m, f, inst, rest))
  {
    WordLexes("call");
    WordLexes("noreturn");
    WordLexes("va");
    WordLexes("unproto");
    TypeLexes(inst.ty);
    hide OperandFits, NamesLex, AllLex, Lexes, CalleeToks, CallArgs, Word, TypeName, Has;
    var third := Word(Has(inst.flags, FLAG_NORETURN), "noreturn", rest);
    var second := Word(Has(inst.flags, FLAG_VARIADIC), "va", third);
    var first := Word(Has(inst.flags, FLAG_UNPROTOTYPED), "unproto", second);
    WordLex(Has(inst.flags, FLAG_NORETURN), "noreturn", rest);
    WordLex(Has(inst.flags, FLAG_VARIADIC), "va", third);
    WordLex(Has(inst.flags, FLAG_UNPROTOTYPED), "unproto", second);
    ItemsLex(m, f, ArgsOf(inst), true, first);
    LexLP(CallArgs(m, f, ArgsOf(inst), first));
    CalleeLexes(m, f, inst, [LP] + CallArgs(m, f, ArgsOf(inst), first));
    TwoWords("call", TypeName(inst.ty), CalleeToks(m, f, inst, [LP] + CallArgs(m, f, ArgsOf(inst), first)));
  }

  lemma LexLP(rest: seq<Tok>)
    requires AllLex(rest)
    ensures AllLex([LP] + rest)
  {
  }

  lemma CalleeLexes(m: ModuleNames, f: Func, inst: Inst, rest: seq<Tok>)
    requires InstFits(m, f, inst) && NamesLex(m, f) && AllLex(rest) && inst.op == OP_CALL
    ensures AllLex(CalleeToks(m, f, inst, rest))
  {
    WordLexes("external");
    WordLexes("indirect");
    if inst.subop == CALL_INDIRECT {
      hide OperandFits, NamesLex, AllLex, Lexes, Atom;
      AtomLexes(m, f, inst.ops[0], rest);
      WordLex(inst.ops[0].kind == OpSymbol, "indirect", Atom(m, f, inst.ops[0], rest));
    } else {
      var name := if inst.subop == CALL_INTERNAL then NameAt(m.funcs, inst.callee) else NameAt(m.syms, inst.callee);
      assert NameLexes(name);
      hide OperandFits, SymTok, Lexes;
      LexFront([SymTok(name)], rest);
      WordLex(inst.callee < |m.syms| && inst.callee < |m.attrs| && m.attrs[inst.callee].defKind.FuncDef?, "external", [SymTok(name)] + rest);
    }
  }

  lemma FlowWordsLex()
    ensures forall w | w in ["br", "condbr", "switch", "ret", "unreachable", "defensive", "config", "implicit"] :: Lexes(Ident(w))
  {
  }

  lemma TerminatorLexes(m: ModuleNames, f: Func, inst: Inst, rest: seq<Tok>)
    requires InstFits(m, f, inst) && NamesLex(m, f) && AllLex(rest) && inst.op >= IR_RET
    ensures AllLex(Terminator(m, f, inst, rest))
  {
    FlowWordsLex();
    if inst.op == OP_CONDBR || inst.op == OP_SWITCH {
      BranchLexes(m, f, inst, rest);
    } else {
      hide OperandFits, EdgeFits, NamesLex, AllLex, Lexes, Typed, EdgeToks, CommaWord, TypeName, Has;
      var flow := Has(inst.flags, FLAG_FLOW);
      WordLex(flow, "defensive", rest);
      WordLex(flow, "implicit", rest);
      if inst.op == OP_BR {
        EdgeLexes(m, f, inst.edges[0], CommaWord(flow, "defensive", rest));
        OneWord("br", EdgeToks(m, f, inst.edges[0], CommaWord(flow, "defensive", rest)));
      } else if inst.op == IR_RET && |inst.ops| > 0 {
        TypedLexes(m, f, inst.ops[0], CommaWord(flow, "implicit", rest));
        OneWord("ret", Typed(m, f, inst.ops[0], CommaWord(flow, "implicit", rest)));
      } else {
        OneWord("ret", CommaWord(flow, "implicit", rest));
        OneWord("unreachable", rest);
      }
    }
  }

  lemma BranchLexes(m: ModuleNames, f: Func, inst: Inst, rest: seq<Tok>)
    requires InstFits(m, f, inst) && NamesLex(m, f) && AllLex(rest) && (inst.op == OP_CONDBR || inst.op == OP_SWITCH)
    ensures AllLex(Terminator(m, f, inst, rest))
  {
    FlowWordsLex();
    TypeLexes(inst.ops[0].ty);
    var tail := CommaWord(Has(inst.flags, FLAG_FLOW), "config", rest);
    WordLex(Has(inst.flags, FLAG_FLOW), "config", rest);
    hide OperandFits, EdgeFits, NamesLex, AllLex, Lexes, Atom, EdgeToks, Cases, CommaWord, TypeName;
    var more := tail;
    if inst.op == OP_CONDBR {
      EdgeLexes(m, f, inst.edges[1], tail);
      LexComma(EdgeToks(m, f, inst.edges[1], tail));
      more := [Comma] + EdgeToks(m, f, inst.edges[1], tail);
    } else {
      CasesLex(m, f, inst.edges[1..], tail);
      more := Cases(m, f, inst.edges[1..], tail);
    }
    EdgeLexes(m, f, inst.edges[0], more);
    LexComma(EdgeToks(m, f, inst.edges[0], more));
    AtomLexes(m, f, inst.ops[0], [Comma] + EdgeToks(m, f, inst.edges[0], more));
    OneWord("condbr", Atom(m, f, inst.ops[0], [Comma] + EdgeToks(m, f, inst.edges[0], more)));
    TwoWords("switch", TypeName(inst.ops[0].ty), Atom(m, f, inst.ops[0], [Comma] + EdgeToks(m, f, inst.edges[0], more)));
  }

  lemma InstLexes(m: ModuleNames, f: Func, inst: Inst)
    requires InstFits(m, f, inst) && NamesLex(m, f)
    ensures InstToks(m, f, inst, []) != [] && AllLex(InstToks(m, f, inst, []))
  {
    assert AllLex([]);
    ValTokLexes(f, inst.result);
    PunctuationLexes();
    BodyLexes(m, f, inst, []);
    hide Body, Lexes, ValTok, InstFits, NamesLex;
  }

  lemma BodyLexes(m: ModuleNames, f: Func, inst: Inst, rest: seq<Tok>)
    requires InstFits(m, f, inst) && NamesLex(m, f) && AllLex(rest)
    ensures Body(m, f, inst, rest) != [] && AllLex(Body(m, f, inst, rest))
  {
    hide AllLex, NamesLex, OperandsFit, EdgesFit;
    BodyStarts(m, f, inst, rest);
    if inst.op == OP_CALL {
      CallLexes(m, f, inst, rest);
    } else if inst.op >= IR_RET {
      TerminatorLexes(m, f, inst, rest);
    } else if Arithmetic(inst.op) {
      ArithmeticLexes(m, f, inst, rest);
    } else if inst.op in {OP_ALLOCA, OP_LOAD, OP_STORE, OP_MEMCPY, OP_MEMSET} {
      AlignedLexes(m, f, inst, rest);
    } else {
      OtherLexes(m, f, inst, rest);
    }
  }

  // --- the lines of a function -----------------------------------------------------------------------

  lemma LinesAppend(a: seq<Line>, b: seq<Line>)
    ensures LinesToks(a + b) == LinesToks(a) + LinesToks(b)
    decreases |a|
  {
    if a == [] {
      assert a + b == b;
    } else {
      LinesAppend(a[1..], b);
      assert (a + b)[1..] == a[1..] + b;
    }
  }

  lemma LinesLexAppend(a: seq<Line>, b: seq<Line>)
    requires LinesLex(a) && LinesLex(b)
    ensures LinesLex(a + b)
  {
    hide LineLexes;
  }

  lemma {:induction false} InstsLined(m: ModuleNames, f: Func, insts: seq<Inst>, rest: seq<Tok>)
    requires AllShaped(insts) && NamesLex(m, f) && forall i | 0 <= i < |insts| :: InstFits(m, f, insts[i])
    ensures LinesLex(InstLines(m, f, insts)) && LinesToks(InstLines(m, f, insts)) + rest == InstsToks(m, f, insts, rest)
    decreases |insts|
  {
    hide InstToks, InstFits, NamesLex, AllLex;
    var lines := InstLines(m, f, insts);
    if insts == [] {
      assert [] + rest == rest;
    } else {
      InstsLined(m, f, insts[1..], rest);
      assert lines[1..] == InstLines(m, f, insts[1..]);
      var head, more := InstToks(m, f, insts[0], []), LinesToks(lines[1..]);
      InstLexes(m, f, insts[0]);
      InstJoin(m, f, insts[0], [], more + rest);
      assert [] + (more + rest) == more + rest;
      assert head + (more + rest) == (head + more) + rest;
      LineIs(lines[0]);
    }
  }

  lemma LineIs(line: Line)
    requires line.indent == "    " || line.indent == "" || line.indent == "\n"
    requires line.toks != [] && AllLex(line.toks)
    ensures LineLexes(line)
  {
  }

  lemma BlockHeaderLexes(m: ModuleNames, f: Func, block: Block, rest: seq<Tok>)
    requires Lexes(Ident(block.name))
    ensures Adds(BlockHeader(f, block), [Ident(block.name), LP] + ParamToks(f, block.params, [RP, Colon] + rest), rest)
  {
    PunctuationLexes();
    AddsNothing(rest);
    hide Lexes, Adds;
    AddsFront([RP, Colon], [], rest, rest);
    assert [RP, Colon] + [] == [RP, Colon];
    ParamsAdd(f, block.params, [RP, Colon], [RP, Colon] + rest, rest);
    AddsFront([Ident(block.name), LP], ParamToks(f, block.params, [RP, Colon]), ParamToks(f, block.params, [RP, Colon] + rest), rest);
  }

  predicate BlockFits(m: ModuleNames, f: Func, block: Block) {
    forall i | 0 <= i < |block.insts| :: InstFits(m, f, block.insts[i])
  }

  lemma {:induction false} BlocksLined(m: ModuleNames, f: Func, b: nat, rest: seq<Tok>)
    requires FuncShaped(f) && NamesLex(m, f) && b <= |f.blocks| && forall c | b <= c < |f.blocks| :: BlockFits(m, f, f.blocks[c])
    ensures LinesLex(BlockLines(m, f, b)) && LinesToks(BlockLines(m, f, b)) + rest == BlocksToks(m, f, b, rest)
    decreases |f.blocks| - b
  {
    hide InstFits, AllLex, Lexes, AllShaped, ParamToks, InstsToks, InstLines, LineLexes;
    if b == |f.blocks| {
      assert [] + rest == rest;
    } else {
      var block, more := f.blocks[b], BlocksToks(m, f, b + 1, rest);
      BlocksLined(m, f, b + 1, rest);
      InstsLined(m, f, block.insts, more);
      var insts, after := InstLines(m, f, block.insts), BlockLines(m, f, b + 1);
      assert Lexes(Ident(f.blocks[b].name));
      BlockHeaderLexes(m, f, block, InstsToks(m, f, block.insts, more));
      var header := [Line("", BlockHeader(f, block))];
      LineIs(header[0]);
      LinesLexAppend(header, insts);
      LinesLexAppend(header + insts, after);
      LinesAppend(header, insts);
      LinesAppend(header + insts, after);
      assert LinesToks(header) == BlockHeader(f, block) by { assert header[1..] == []; }
      assert BlockHeader(f, block) + LinesToks(insts) + LinesToks(after) + rest
          == BlockHeader(f, block) + (LinesToks(insts) + (LinesToks(after) + rest));
    }
  }

  predicate FuncFits(m: ModuleNames, t: FuncText) {
    HeaderLexes(t.header) && FuncShaped(t.func) && NamesLex(m, t.func) && forall b | 0 <= b < |t.func.blocks| :: BlockFits(m, t.func, t.func.blocks[b])
  }

  lemma FuncLined(m: ModuleNames, t: FuncText, rest: seq<Tok>)
    requires FuncFits(m, t)
    ensures LinesLex(FuncLines(m, t.header, t.func))
    ensures LinesToks(FuncLines(m, t.header, t.func)) + rest == FuncToks(m, t.header, t.func, rest)
  {
    hide BlockFits, AllLex, FuncShaped, HeaderToks, BlocksToks, BlockLines, LineLexes, NamesLex, HeaderLexes;
    PunctuationLexes();
    var header, body, end := [Line("\n", HeaderToks(t.header, t.func, []))], BlockLines(m, t.func, 0), [Line("", [RB])];
    BlocksLined(m, t.func, 0, [RB] + rest);
    HeaderAdds(t.header, t.func, BlocksToks(m, t.func, 0, [RB] + rest));
    HeaderStarts(t.header, t.func);
    LineIs(header[0]);
    BraceLexes();
    LineIs(end[0]);
    LinesLexAppend(header, body);
    LinesLexAppend(header + body, end);
    LinesAppend(header, body);
    LinesAppend(header + body, end);
    assert LinesToks(header) == header[0].toks by { assert header[1..] == []; }
    assert LinesToks(end) == [RB] by { assert end[1..] == []; }
    assert header[0].toks + LinesToks(body) + [RB] + rest == header[0].toks + (LinesToks(body) + ([RB] + rest));
  }

  lemma BraceLexes()
    ensures AllLex([RB])
  {
  }

  lemma HeaderStarts(h: Header, f: Func)
    ensures HeaderToks(h, f, []) != []
  {
    hide FuncParamToks, ParamsEnd, FuncMarkToks;
  }

  lemma {:induction false} FuncsLined(m: ModuleNames, funcs: seq<FuncText>, rest: seq<Tok>)
    requires AllFuncsShaped(funcs) && forall i | 0 <= i < |funcs| :: FuncFits(m, funcs[i])
    ensures LinesLex(FuncsLines(m, funcs)) && LinesToks(FuncsLines(m, funcs)) + rest == FuncRecords(m, funcs, rest)
    decreases |funcs|
  {
    hide FuncFits, LineLexes, FuncLines, FuncShaped, FuncToks;
    if funcs == [] {
      assert [] + rest == rest;
    } else {
      var first, more := FuncLines(m, funcs[0].header, funcs[0].func), FuncsLines(m, funcs[1..]);
      FuncsLined(m, funcs[1..], rest);
      FuncLined(m, funcs[0], FuncRecords(m, funcs[1..], rest));
      LinesLexAppend(first, more);
      LinesAppend(first, more);
      assert LinesToks(first) + LinesToks(more) + rest == LinesToks(first) + (LinesToks(more) + rest);
    }
  }

  // --- the lines before the functions -------------------------------------------------------------------

  lemma {:induction false} IdentsLined(idents: seq<seq<nat>>, rest: seq<Tok>)
    requires forall i | 0 <= i < |idents| :: IrLex.AllBytes(idents[i])
    ensures LinesLex(IdentLines(idents)) && LinesToks(IdentLines(idents)) + rest == IdentRecords(idents, rest)
    decreases |idents|
  {
    var lines := IdentLines(idents);
    if idents == [] {
      assert [] + rest == rest;
    } else {
      IdentsLined(idents[1..], rest);
      assert lines[1..] == IdentLines(idents[1..]);
      WordLexes("ident");
      LineIs(lines[0]);
      assert lines[0].toks + LinesToks(lines[1..]) + rest == lines[0].toks + (LinesToks(lines[1..]) + rest);
      OneMore(lines);
    }
  }

  lemma OneMore(lines: seq<Line>)
    requires lines != [] && LineLexes(lines[0]) && LinesLex(lines[1..])
    ensures LinesLex(lines)
  {
    hide LineLexes;
    assert lines == [lines[0]] + lines[1..];
    LinesLexAppend([lines[0]], lines[1..]);
  }

  // One record that adds its line to the rest.
  lemma OneLined(lines: seq<Line>, xr: seq<Tok>, rest: seq<Tok>)
    requires lines != [] && LinesLex(lines[1..]) && lines[0].indent == "" && lines[0].toks != []
    requires Adds(lines[0].toks, xr, LinesToks(lines[1..]) + rest)
    ensures LinesLex(lines) && LinesToks(lines) + rest == xr
  {
    LineIs(lines[0]);
    OneMore(lines);
    assert lines[0].toks + LinesToks(lines[1..]) + rest == lines[0].toks + (LinesToks(lines[1..]) + rest);
  }

  lemma {:induction false} SymsLined(syms: seq<string>, marks: seq<SymMarks>, rest: seq<Tok>)
    requires |marks| == |syms| && forall i | 0 <= i < |syms| :: NameLexes(syms[i]) && SymMarksOk(marks[i])
    ensures LinesLex(SymLines(syms, marks)) && LinesToks(SymLines(syms, marks)) + rest == SymRecords(syms, marks, rest)
    decreases |syms|
  {
    hide SymTok, SymMarkToks, Lexes;
    var lines := SymLines(syms, marks);
    if syms == [] {
      assert [] + rest == rest;
    } else {
      SymsLined(syms[1..], marks[1..], rest);
      assert lines[1..] == SymLines(syms[1..], marks[1..]);
      SymLexes(syms[0], marks[0], LinesToks(lines[1..]) + rest);
      OneLined(lines, SymRecords(syms, marks, rest), rest);
    }
  }

  lemma SymLexes(name: string, k: SymMarks, rest: seq<Tok>)
    requires NameLexes(name) && SymMarksOk(k)
    ensures Adds([Ident("sym"), SymTok(name)] + SymMarkToks(k, []), [Ident("sym"), SymTok(name)] + SymMarkToks(k, rest), rest)
  {
    WordLexes("sym");
    AddsNothing(rest);
    hide SymTok, SymMarkToks, Lexes, Adds;
    SymMarksAdd(k, [], rest, rest);
    AddsFront([Ident("sym"), SymTok(name)], SymMarkToks(k, []), SymMarkToks(k, rest), rest);
  }

  lemma {:induction false} AliasesLined(aliases: seq<Alias>, rest: seq<Tok>)
    requires forall i | 0 <= i < |aliases| :: AliasLexes(aliases[i])
    ensures LinesLex(AliasLines(aliases)) && LinesToks(AliasLines(aliases)) + rest == AliasRecords(aliases, rest)
    decreases |aliases|
  {
    hide AliasToks, AliasLexes;
    var lines := AliasLines(aliases);
    if aliases == [] {
      assert [] + rest == rest;
    } else {
      AliasesLined(aliases[1..], rest);
      assert lines[1..] == AliasLines(aliases[1..]);
      AliasAdds(aliases[0], LinesToks(lines[1..]) + rest);
      OneLined(lines, AliasRecords(aliases, rest), rest);
    }
  }

  lemma {:induction false} GlobalsLined(syms: seq<string>, globals: seq<Global>, rest: seq<Tok>)
    requires forall i | 0 <= i < |globals| :: GlobalLexes(syms, globals[i])
    ensures LinesLex(GlobalLines(syms, globals)) && LinesToks(GlobalLines(syms, globals)) + rest == GlobalRecords(syms, globals, rest)
    decreases |globals|
  {
    hide GlobalToks, GlobalLexes;
    var lines := GlobalLines(syms, globals);
    if globals == [] {
      assert [] + rest == rest;
    } else {
      GlobalsLined(syms, globals[1..], rest);
      assert lines[1..] == GlobalLines(syms, globals[1..]);
      GlobalAdds(syms, globals[0], LinesToks(lines[1..]) + rest);
      OneLined(lines, GlobalRecords(syms, globals, rest), rest);
    }
  }
}
