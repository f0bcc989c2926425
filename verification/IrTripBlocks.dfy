/** Reading back printed terminators, instruction lists, block headers and blocks. */
module IrTripBlocks {
  import opened Ir
  import opened IrNames
  import opened IrTokens
  import opened IrPrint
  import opened IrParse
  import opened IrTripOperands
  import opened IrTripLists
  import opened IrTripInsts
  import opened IrTripMemory

  // --- terminators ---------------------------------------------------------------------------

  predicate FlowOk(flags: nat) {
    flags == FlagIf(Has(flags, FLAG_FLOW), FLAG_FLOW)
  }

  predicate TerminatorOk(m: ModuleNames, f: Func, inst: Inst) {
    && Shaped(inst) && IR_RET <= inst.op <= IR_UNREACHABLE && inst.ty == TYPE_VOID && inst.result == 0 && PlainFields(inst)
    && FlowOk(inst.flags) && EdgesOk(m, f, inst.edges)
    && (forall i | 0 <= i < |inst.edges| && (inst.op != OP_SWITCH || i == 0) :: inst.edges[i].caseVal == 0)
    && if inst.op == IR_RET then |inst.ops| == 1 ==> BareAtom(m, f, inst.ops[0], inst.ops[0].ty)
       else if inst.op == OP_CONDBR then BareAtom(m, f, inst.ops[0], TYPE_I32)
       else if inst.op == OP_SWITCH then BareAtom(m, f, inst.ops[0], inst.ops[0].ty)
       else inst.op == IR_UNREACHABLE ==> inst.flags == 0
  }

  // After a terminator comes a block header or the closing brace.
  predicate EndsBlock(rest: seq<Tok>) {
    Front(rest).RB? || (Front(rest).Ident? && TypeNumber(Front(rest).text) < 0)
  }

  lemma FlowBack(inst: Inst, ops: seq<Slot>, edges: seq<SlotEdge>, st: State, word: string, rest: seq<Tok>)
    requires FlowOk(inst.flags) && EndsBlock(rest)
    ensures WithFlow(inst.op, ops, edges, st, CommaWord(Has(inst.flags, FLAG_FLOW), word, rest), word) ==
              Parsed(SlotInst(inst.op, TYPE_VOID, 0, inst.flags, 0, 0, ops, edges), st, rest)
  {
    CommaWordBack(Has(inst.flags, FLAG_FLOW), word, rest);
  }

  lemma EdgeLeadsBack(m: ModuleNames, f: Func, k: Known, n: nat, e: Edge, rest: seq<Tok>)
    requires Ready0(m, f, n) && BlocksKnown(k, f) && EdgeOk(m, f, e)
    ensures var p := ParseEdge(k, StateAt(m, f, n), EdgeToks(m, f, e, rest), e.caseVal);
            p.Parsed? && p.st == StateAt(m, f, n) && p.rest == rest && EdgeLeads(p.value, e)
  {
    hide ParseEdge, EdgeToks, Canonical, EdgeStands, EdgeOk, BlocksKnown, NamesTo;
    DefinedAt(m, f, n);
    EdgeBack(m, f, k, n, StateAt(m, f, n), e, rest);
    BareEdge(m, f, ParseEdge(k, StateAt(m, f, n), EdgeToks(m, f, e, rest), e.caseVal).value, e, n);
  }

  lemma CasesLeadBack(m: ModuleNames, f: Func, k: Known, n: nat, es: seq<Edge>, rest: seq<Tok>)
    requires Ready0(m, f, n) && BlocksKnown(k, f) && EdgesOk(m, f, es) && (!Front(rest).Comma? || !Second(rest).IntTok?)
    ensures var p := ParseCases(k, StateAt(m, f, n), Cases(m, f, es, rest));
            p.Parsed? && p.st == StateAt(m, f, n) && p.rest == rest
            && |p.value| == |es| && forall i | 0 <= i < |es| :: EdgeLeads(p.value[i], es[i])
  {
    hide ParseCases, Cases, Canonical, EdgeStands, EdgeOk, BlocksKnown, NamesTo, EdgeLeads;
    DefinedAt(m, f, n);
    CasesBack(m, f, k, n, StateAt(m, f, n), es, rest);
    var ss := ParseCases(k, StateAt(m, f, n), Cases(m, f, es, rest)).value;
    forall i | 0 <= i < |es|
      ensures EdgeLeads(ss[i], es[i])
    {
      BareEdge(m, f, ss[i], es[i], n);
    }
  }

  lemma RetBack(m: ModuleNames, f: Func, n: nat, inst: Inst, rest: seq<Tok>)
    requires Ready0(m, f, n) && TerminatorOk(m, f, inst) && inst.op == IR_RET && EndsBlock(rest)
    ensures var p := ParseRet(StateAt(m, f, n), Terminator(m, f, inst, rest)[1..]);
            p.Parsed? && p.rest == rest && p.st == StateAt(m, f, n) && InstLeads(p.value, DropInst(inst, n))
  {
    hide ParseTyped, Typed, Canonical, BareAtom, Leads, NamesTo, Drop, StateAt, TypeNumber, TypeName, WithFlow, CommaWord, Has;
    var flow := Has(inst.flags, FLAG_FLOW);
    var tail, ts := CommaWord(flow, "implicit", rest), Terminator(m, f, inst, rest)[1..];
    FlowTail(flow, "implicit", rest);
    if |inst.ops| == 0 {
      assert ts == tail;
      FlowBack(inst, [], [], StateAt(m, f, n), "implicit", rest);
      assert inst.ops == [];
    } else {
      assert ts == Typed(m, f, inst.ops[0], tail);
      BareTypedBack(m, f, n, n, inst.ops[0], tail);
      TypedFront(m, f, inst.ops[0], tail);
      FlowBack(inst, [ParseTyped(StateAt(m, f, n), ts).value], [], StateAt(m, f, n), "implicit", rest);
    }
  }

  lemma FlowTail(on: bool, word: string, rest: seq<Tok>)
    requires EndsBlock(rest)
    ensures var tail := CommaWord(on, word, rest);
            NoInt(tail) && TypeOfTok(Front(tail)) < 0 && (!Front(tail).Comma? || !Second(tail).IntTok?)
  {
  }

  lemma TypedFront(m: ModuleNames, f: Func, o: Operand, rest: seq<Tok>)
    requires BareAtom(m, f, o, o.ty)
    ensures TypeOfTok(Front(Typed(m, f, o, rest))) == o.ty
  {
    TypeTokBack(o.ty);
  }

  lemma BranchBack(m: ModuleNames, f: Func, k: Known, n: nat, inst: Inst, rest: seq<Tok>)
    requires Ready0(m, f, n) && BlocksKnown(k, f) && TerminatorOk(m, f, inst) && inst.op == OP_BR && EndsBlock(rest)
    ensures var p := ParseTerminator(inst.op, k, StateAt(m, f, n), Terminator(m, f, inst, rest)[1..]);
            p.Parsed? && p.rest == rest && p.st == StateAt(m, f, n) && InstLeads(p.value, DropInst(inst, n))
  {
    hide ParseEdge, EdgeToks, Canonical, EdgeLeads, EdgeOk, BlocksKnown, NamesTo, StateAt, WithFlow, CommaWord, Has;
    var tail := CommaWord(Has(inst.flags, FLAG_FLOW), "defensive", rest);
    var e := inst.edges[0];
    assert Terminator(m, f, inst, rest)[1..] == EdgeToks(m, f, e, tail);
    EdgeLeadsBack(m, f, k, n, e, tail);
    FlowBack(inst, [], [ParseEdge(k, StateAt(m, f, n), EdgeToks(m, f, e, tail), 0).value], StateAt(m, f, n), "defensive", rest);
    assert inst.ops == [];
  }

  lemma CondbrBack(m: ModuleNames, f: Func, k: Known, n: nat, inst: Inst, rest: seq<Tok>)
    requires Ready0(m, f, n) && BlocksKnown(k, f) && TerminatorOk(m, f, inst) && inst.op == OP_CONDBR && EndsBlock(rest)
    ensures var p := ParseCondbr(k, StateAt(m, f, n), Terminator(m, f, inst, rest)[1..]);
            p.Parsed? && p.rest == rest && p.st == StateAt(m, f, n) && InstLeads(p.value, DropInst(inst, n))
  {
    hide ParseEdge, EdgeToks, ParseAtom, Atom, Canonical, EdgeLeads, EdgeOk, BlocksKnown, NamesTo, StateAt, WithFlow, CommaWord, Has,
         BareAtom, Leads, Drop;
    var tail := CommaWord(Has(inst.flags, FLAG_FLOW), "config", rest);
    var e, e2, st := inst.edges[0], inst.edges[1], StateAt(m, f, n);
    var second := [Comma] + EdgeToks(m, f, e2, tail);
    var first := [Comma] + EdgeToks(m, f, e, second);
    assert Terminator(m, f, inst, rest)[1..] == Atom(m, f, inst.ops[0], first);
    BareAtomBack(m, f, n, n, inst.ops[0], TYPE_I32, first);
    assert first[1..] == EdgeToks(m, f, e, second) && second[1..] == EdgeToks(m, f, e2, tail);
    EdgeLeadsBack(m, f, k, n, e, second);
    EdgeLeadsBack(m, f, k, n, e2, tail);
    FlowBack(inst, [ParseAtom(st, TYPE_I32, Atom(m, f, inst.ops[0], first)).value],
             [ParseEdge(k, st, EdgeToks(m, f, e, second), 0).value, ParseEdge(k, st, EdgeToks(m, f, e2, tail), 0).value], st, "config", rest);
  }

  lemma SwitchBack(m: ModuleNames, f: Func, k: Known, n: nat, inst: Inst, rest: seq<Tok>)
    requires Ready0(m, f, n) && BlocksKnown(k, f) && TerminatorOk(m, f, inst) && inst.op == OP_SWITCH && EndsBlock(rest)
    ensures var p := ParseSwitch(k, StateAt(m, f, n), Terminator(m, f, inst, rest)[1..]);
            p.Parsed? && p.rest == rest && p.st == StateAt(m, f, n) && InstLeads(p.value, DropInst(inst, n))
  {
    hide ParseEdge, EdgeToks, ParseCases, Cases, ParseAtom, Atom, Canonical, EdgeLeads, EdgeOk, BlocksKnown, NamesTo, StateAt, WithFlow,
         CommaWord, Has, BareAtom, Leads, Drop, TypeName, TypeNumber;
    var flow := Has(inst.flags, FLAG_FLOW);
    var tail := CommaWord(flow, "config", rest);
    var o, e, st := inst.ops[0], inst.edges[0], StateAt(m, f, n);
    var cases := Cases(m, f, inst.edges[1..], tail);
    var first := [Comma] + EdgeToks(m, f, e, cases);
    var ts := Terminator(m, f, inst, rest)[1..];
    assert ts[1..] == Atom(m, f, o, first);
    OperandTypeOk(m, f, o, o.ty);
    TypeTokBack(o.ty);
    BareAtomBack(m, f, n, n, o, o.ty, first);
    assert first[1..] == EdgeToks(m, f, e, cases);
    EdgeLeadsBack(m, f, k, n, e, cases);
    FlowTail(flow, "config", rest);
    CasesLeadBack(m, f, k, n, inst.edges[1..], tail);
    FlowBack(inst, [ParseAtom(st, o.ty, Atom(m, f, o, first)).value],
             [ParseEdge(k, st, EdgeToks(m, f, e, cases), 0).value] + ParseCases(k, st, cases).value, st, "config", rest);
    assert inst.edges == [e] + inst.edges[1..];
  }

  lemma TerminatorBack(m: ModuleNames, f: Func, k: Known, n: nat, inst: Inst, rest: seq<Tok>)
    requires Ready0(m, f, n) && BlocksKnown(k, f) && TerminatorOk(m, f, inst) && EndsBlock(rest)
    ensures var p := ParseTerminator(inst.op, k, StateAt(m, f, n), Body(m, f, inst, rest)[1..]);
            p.Parsed? && p.rest == rest && p.st == StateAt(m, f, n) && InstLeads(p.value, DropInst(inst, n))
  {
    hide ParseRet, ParseCondbr, ParseSwitch, ParseEdge, EdgeToks, Canonical, EdgeLeads, BlocksKnown, StateAt, InstLeads, Terminator;
    assert Body(m, f, inst, rest) == Terminator(m, f, inst, rest);
    if inst.op == IR_RET {
      RetBack(m, f, n, inst, rest);
    } else if inst.op == OP_BR {
      BranchBack(m, f, k, n, inst, rest);
    } else if inst.op == OP_CONDBR {
      CondbrBack(m, f, k, n, inst, rest);
    } else if inst.op == OP_SWITCH {
      SwitchBack(m, f, k, n, inst, rest);
    } else {
      UnreachableBack(m, f, k, n, inst, rest);
    }
  }

  lemma UnreachableBack(m: ModuleNames, f: Func, k: Known, n: nat, inst: Inst, rest: seq<Tok>)
    requires n <= |f.vals| && TerminatorOk(m, f, inst) && inst.op == IR_UNREACHABLE
    ensures var p := ParseTerminator(inst.op, k, StateAt(m, f, n), Terminator(m, f, inst, rest)[1..]);
            p.Parsed? && p.rest == rest && p.st == StateAt(m, f, n) && InstLeads(p.value, DropInst(inst, n))
  {
    assert Terminator(m, f, inst, rest)[1..] == rest;
    assert inst.ops == [] && inst.edges == [];
  }

  // --- any instruction ---------------------------------------------------------------------------

  ghost predicate InstOk(m: ModuleNames, f: Func, inst: Inst) {
    if IsBinary(inst.op) then BinaryOk(m, f, inst)
    else if inst.op == IR_ICMP || inst.op == IR_FCMP then CompareOk(m, f, inst)
    else if IsCast(inst.op) then CastOk(m, f, inst)
    else if inst.op == OP_FNEG || inst.op == OP_FABS || inst.op == OP_VSPLAT || inst.op == OP_VEXTRACT || IsReduce(inst.op) then UnaryOk(m, f, inst)
    else if inst.op == OP_SELECT then SelectOk(m, f, inst)
    else if inst.op in {OP_ALLOCA, OP_LOAD, OP_STORE, OP_MEMCPY, OP_MEMSET} then MemoryOk(m, f, inst)
    else if inst.op == OP_ATOMICRMW || inst.op == OP_CMPXCHG then AtomicOk(m, f, inst)
    else if inst.op == OP_PTRADD then PtraddOk(m, f, inst)
    else if inst.op == OP_CALL then CallOk(m, f, inst)
    else if inst.op >= IR_RET then TerminatorOk(m, f, inst)
    else StackOk(m, f, inst)
  }

  predicate Follows(inst: Inst, rest: seq<Tok>) {
    if IsTerminator(inst.op) then EndsBlock(rest) else StartsInst(rest)
  }

  lemma FollowsFacts(inst: Inst, rest: seq<Tok>)
    requires Follows(inst, rest)
    ensures NoComma(rest) && NoInt(rest)
  {
  }

  lemma InstFacts(m: ModuleNames, f: Func, inst: Inst)
    requires InstOk(m, f, inst)
    ensures Shaped(inst) && inst.op <= IR_UNREACHABLE && inst.op != 51
    ensures inst.result != 0 ==> !Valueless(inst.op)
    ensures inst.result == 0 && inst.op != OP_CALL ==> Valueless(inst.op)
  {
    hide BareAtom, EdgesOk, ItemsOk, CallFlagsOk, FlowOk, MemFlagsOk, TailOk, Shaped;
    ShapeOk(m, f, inst);
  }

  lemma ShapeOk(m: ModuleNames, f: Func, inst: Inst)
    requires InstOk(m, f, inst)
    ensures Shaped(inst) && inst.op <= IR_UNREACHABLE && inst.op != 51
  {
    hide BareAtom, EdgesOk, ItemsOk, CallFlagsOk, FlowOk, MemFlagsOk, TailOk;
  }

  lemma BodyStarts(m: ModuleNames, f: Func, inst: Inst, rest: seq<Tok>)
    requires Shaped(inst)
    ensures Body(m, f, inst, rest) != [] && Body(m, f, inst, rest)[0] == Ident(OpName(inst.op))
  {
    hide Atom, Typed, CallArgs, CalleeToks, MemoryBody, Terminator, CommaWord, Word, TypeName, Has, IcmpName, FcmpName;
    if inst.op >= IR_RET {
      TerminatorStarts(m, f, inst, rest);
    } else if OfMemory(inst.op) {
      MemoryStarts(m, f, inst, rest);
    }
  }

  predicate OfMemory(op: nat) {
    OP_ALLOCA <= op <= OP_MEMSET || op == OP_SELECT || OP_VA_START <= op < IR_RET
  }

  lemma TerminatorStarts(m: ModuleNames, f: Func, inst: Inst, rest: seq<Tok>)
    requires Shaped(inst) && IR_RET <= inst.op <= IR_UNREACHABLE
    ensures Terminator(m, f, inst, rest) != [] && Terminator(m, f, inst, rest)[0] == Ident(OpName(inst.op))
  {
    hide Atom, Typed, EdgeToks, Cases, CommaWord, TypeName, Has;
  }

  lemma MemoryStarts(m: ModuleNames, f: Func, inst: Inst, rest: seq<Tok>)
    requires Shaped(inst) && OfMemory(inst.op)
    ensures MemoryBody(m, f, inst, rest) != [] && MemoryBody(m, f, inst, rest)[0] == Ident(OpName(inst.op))
  {
    hide Atom, Typed, MemFlags, EtypeClause, AlignClause, TypeName, RmwName;
  }

  lemma BodyBack(m: ModuleNames, f: Func, k: Known, n: nat, inst: Inst, rest: seq<Tok>)
    requires Ready0(m, f, n) && BlocksKnown(k, f) && FuncsKnown(m, k) && ResultOk(f, inst, n) && InstOk(m, f, inst) && Follows(inst, rest)
    requires Shaped(inst) && Body(m, f, inst, rest) != []
    ensures var p := ParseBody(inst.op, k, StateAt(m, f, n), ResultOf(inst), Body(m, f, inst, rest)[1..]);
            p.Parsed? && p.rest == rest && p.st == StateAt(m, f, After(inst, n)) && InstLeads(p.value, DropInst(inst, After(inst, n)))
  {
    hide Body, Canonical, BlocksKnown, FuncsKnown, StateAt, InstLeads, BinaryOk, CompareOk, CastOk, UnaryOk, SelectOk, MemoryOk, AtomicOk,
         PtraddOk, CallOk, TerminatorOk, StackOk, ParseBinary, ParseCompare, ParseCast, ParseVector, ParseSelect, ParseMemory, ParseAtomic,
         ParsePtradd, ParseCall, ParseTerminator, ParseUnary, Follows, Append, DropInst, Shaped, ResultOf;
    FollowsFacts(inst, rest);
    if IsBinary(inst.op) {
      BinaryBack(m, f, n, inst, rest);
    } else if inst.op == IR_ICMP || inst.op == IR_FCMP {
      CompareBack(m, f, n, inst, rest);
    } else if IsCast(inst.op) {
      CastBack(m, f, n, inst, rest);
    } else if inst.op == OP_FNEG || inst.op == OP_FABS || inst.op == OP_VSPLAT || inst.op == OP_VEXTRACT || IsReduce(inst.op) {
      VectorBack(m, f, n, inst, rest);
    } else if inst.op == OP_SELECT {
      SelectBack(m, f, n, inst, rest);
    } else if inst.op in {OP_ALLOCA, OP_LOAD, OP_STORE, OP_MEMCPY, OP_MEMSET} {
      MemoryBack(m, f, n, inst, rest);
    } else if inst.op == OP_ATOMICRMW || inst.op == OP_CMPXCHG {
      AtomicBack(m, f, n, inst, rest);
    } else {
      OtherBack(m, f, k, n, inst, rest);
    }
  }

  lemma OtherBack(m: ModuleNames, f: Func, k: Known, n: nat, inst: Inst, rest: seq<Tok>)
    requires Ready0(m, f, n) && BlocksKnown(k, f) && FuncsKnown(m, k) && ResultOk(f, inst, n) && InstOk(m, f, inst) && Follows(inst, rest)
    requires Shaped(inst) && (inst.op == OP_PTRADD || inst.op == OP_CALL || inst.op >= OP_VA_START)
    requires inst.op != OP_ATOMICRMW && inst.op != OP_CMPXCHG && Body(m, f, inst, rest) != []
    ensures var p := ParseBody(inst.op, k, StateAt(m, f, n), ResultOf(inst), Body(m, f, inst, rest)[1..]);
            p.Parsed? && p.rest == rest && p.st == StateAt(m, f, After(inst, n)) && InstLeads(p.value, DropInst(inst, After(inst, n)))
  {
    hide Body, Canonical, BlocksKnown, FuncsKnown, StateAt, InstLeads, PtraddOk, CallOk, ParsePtradd, ParseCall, ParseTerminator,
         ParseUnary, Append, DropInst, Shaped, EdgesOk, FlowOk, EndsBlock;
    FollowsFacts(inst, rest);
    if inst.op == OP_PTRADD {
      PtraddBack(m, f, n, inst, rest);
    } else if inst.op == OP_CALL {
      CallBack(m, f, k, n, inst, rest);
    } else if inst.op >= IR_RET {
      TerminatorBack(m, f, k, n, inst, rest);
    } else {
      StackBack(m, f, k, n, inst, rest);
    }
  }

  lemma StackBack(m: ModuleNames, f: Func, k: Known, n: nat, inst: Inst, rest: seq<Tok>)
    requires Ready0(m, f, n) && ResultOk(f, inst, n) && StackOk(m, f, inst) && NoInt(rest)
    ensures var p := ParseBody(inst.op, k, StateAt(m, f, n), ResultOf(inst), Body(m, f, inst, rest)[1..]);
            p.Parsed? && p.rest == rest && p.st == StateAt(m, f, After(inst, n)) && InstLeads(p.value, DropInst(inst, After(inst, n)))
  {
    hide Canonical, StateAt, BareAtom, Leads, Append, ParseUnary, Atom, Drop;
    if inst.op == OP_STACKSAVE {
      AppendBack(m, f, inst, n);
      assert Body(m, f, inst, rest)[1..] == rest;
      assert inst.ops == [] && inst.edges == [];
    } else {
      assert Body(m, f, inst, rest)[1..] == Atom(m, f, inst.ops[0], rest);
      UnaryParse(m, f, n, inst, TYPE_PTR, rest);
      assert DropInst(inst, n).(subop := 0, flags := 0, callee := 0) == DropInst(inst, n);
    }
  }

  // A printed instruction parses to what it was, save dropped flags.
  lemma InstBack(m: ModuleNames, f: Func, k: Known, n: nat, inst: Inst, rest: seq<Tok>)
    requires Ready0(m, f, n) && BlocksKnown(k, f) && FuncsKnown(m, k) && ResultOk(f, inst, n) && InstOk(m, f, inst) && Follows(inst, rest)
    requires Shaped(inst)
    ensures var p := ParseInst(k, StateAt(m, f, n), InstToks(m, f, inst, rest));
            p.Parsed? && p.rest == rest && p.st == StateAt(m, f, After(inst, n)) && InstLeads(p.value, DropInst(inst, After(inst, n)))
  {
    hide Body, Canonical, BlocksKnown, FuncsKnown, StateAt, InstLeads, ParseBody, InstOk, Follows, DropInst, Shaped, OpName, OpNumber, ValTok;
    InstFacts(m, f, inst);
    BodyStarts(m, f, inst, rest);
    BodyBack(m, f, k, n, inst, rest);
    OpNameBack(inst.op);
    if inst.result != 0 {
      ValTokIs(f, inst.result);
      assert InstToks(m, f, inst, rest)[2..] == Body(m, f, inst, rest);
    }
  }
}
