/** Parsing a printed function gives the function back, exactly when no call
    argument that names a later value carries a flag. */
module IrRoundTrip {
  import opened Shared
  import opened Ir
  import opened IrNames
  import opened IrTokens
  import opened IrMarks
  import opened IrPrint
  import opened IrParse
  import opened IrTripOperands
  import opened IrTripLists
  import opened IrTripInsts
  import opened IrTripMemory
  import opened IrTripBlocks
  import opened IrTripMarks
  import opened IrTripScan
  import opened IrTripShape
  import opened IrTripFunc
  import Probing
  import Renumber
  import Renumbering

  // --- the scan for labels ---------------------------------------------------------------------

  lemma {:induction false} FirstRPIs(ts: seq<Tok>, j: nat)
    requires j < |ts| && ts[j].RP? && forall i | 0 <= i < j :: !ts[i].RP? && !ts[i].Eof?
    ensures FirstRP(ts) == j
  {
    if j > 0 {
      FirstRPIs(ts[1..], j - 1);
    }
  }

  // The first closing parenthesis after i.
  lemma {:induction false} NextRP(ts: seq<Tok>, i: nat, j: nat) returns (first: nat)
    requires i <= j < |ts| && ts[j].RP?
    ensures i <= first <= j && ts[first].RP? && forall q | i <= q < first :: !ts[q].RP?
    decreases j - i
  {
    if ts[i].RP? {
      first := i;
    } else {
      first := NextRP(ts, i + 1, j);
    }
  }

  lemma NoHeaderHere(ts: seq<Tok>, rest: seq<Tok>)
    requires Quiet(ts) && SafeFront(rest) && ts != []
    ensures HeaderAt(ts + rest) == 0
  {
    var all := ts + rest;
    if ts[0].Ident? && Second(all).LP? {
      assert |ts| > 1 && ts[1].LP?;
      assert ClosedAfter(ts, 0);
      var j :| 1 < j < |ts| && ts[j].RP?;
      var first := NextRP(ts, 2, j);
      forall i | 0 <= i < first - 2
        ensures !all[2..][i].RP? && !all[2..][i].Eof?
      {
        assert all[2..][i] == ts[i + 2];
      }
      FirstRPIs(all[2..], first - 2);
      assert first + 1 < |ts| ==> !ts[first + 1].Colon?;
    }
  }

  lemma QuietRest(ts: seq<Tok>)
    requires Quiet(ts) && ts != []
    ensures Quiet(ts[1..])
  {
    var r := ts[1..];
    assert forall i | 0 <= i < |r| :: r[i] == ts[i + 1];
    forall i | 0 <= i < |r| - 1 && r[i].RP?
      ensures !r[i + 1].Colon?
    {
      assert ts[i + 1].RP? && !ts[i + 2].Colon?;
    }
    forall i | 0 <= i < |r| - 1 && r[i].Ident? && r[i + 1].LP?
      ensures ClosedAfter(r, i)
    {
      assert ts[i + 1].Ident? && ts[i + 2].LP? && ClosedAfter(ts, i + 1);
      var j :| i + 2 < j < |ts| && ts[j].RP?;
      assert r[j - 1].RP?;
    }
  }

  // Quiet text is scanned over.
  lemma {:induction false} PrescanQuiet(ts: seq<Tok>, rest: seq<Tok>, found: seq<string>)
    requires Quiet(ts) && SafeFront(rest)
    ensures Prescan(ts + rest, found) == Prescan(rest, found)
    decreases |ts|
  {
    if ts == [] {
      assert ts + rest == rest;
    } else {
      NoHeaderHere(ts, rest);
      QuietRest(ts);
      PrescanQuiet(ts[1..], rest, found);
      assert (ts + rest)[1..] == ts[1..] + rest;
    }
  }

  lemma {:induction false} PrescanInsts(m: ModuleNames, f: Func, k: Known, insts: seq<Inst>, rest: seq<Tok>, found: seq<string>)
    requires AllShaped(insts) && SafeFront(rest) && forall i | 0 <= i < |insts| :: InstOk(m, f, insts[i])
    ensures Prescan(InstsToks(m, f, insts, rest), found) == Prescan(rest, found) && SafeFront(InstsToks(m, f, insts, rest))
    decreases |insts|
  {
    hide InstToks, Shaped, InstOk, Quiet, Prescan, SafeFront;
    if insts != [] {
      var more := InstsToks(m, f, insts[1..], rest);
      PrescanInsts(m, f, k, insts[1..], rest, found);
      InstJoin(m, f, insts[0], [], more);
      assert [] + more == more;
      EmptyTame();
      TameInst(m, f, insts[0], []);
      TameFacts(InstToks(m, f, insts[0], []));
      PrescanQuiet(InstToks(m, f, insts[0], []), more, found);
      InstStarts(m, f, k, insts[0], more);
      StartIsSafe(InstToks(m, f, insts[0], more));
    }
  }

  lemma StartIsSafe(ts: seq<Tok>)
    requires StartsInst(ts)
    ensures SafeFront(ts)
  {
  }

  lemma EmptyTame()
    ensures Tame([])
  {
  }

  function ParamLength(ids: seq<nat>): nat {
    if ids == [] then 0 else 3 * |ids| - 1
  }

  lemma {:induction false} ParamsScanned(f: Func, ids: seq<nat>, rest: seq<Tok>)
    ensures var ts := ParamToks(f, ids, rest);
            && |ts| == ParamLength(ids) + |rest| && ts[ParamLength(ids)..] == rest
            && forall i | 0 <= i < ParamLength(ids) :: ts[i].Ident? || ts[i].Pident? || ts[i].Comma?
    decreases |ids|
  {
    hide TypeName, ValTok;
    var ts := ParamToks(f, ids, rest);
    if ids != [] {
      ValTokShape(f, ids[0]);
      if |ids| > 1 {
        var more := ParamToks(f, ids[1..], rest);
        ParamsScanned(f, ids[1..], rest);
        assert ts[3..] == more;
        assert forall i | 3 <= i < ParamLength(ids) :: ts[i] == more[i - 3];
        assert ts[ParamLength(ids)..] == more[ParamLength(ids[1..])..];
      }
    }
  }

  lemma HeaderScanned(f: Func, name: string, ids: seq<nat>, rest: seq<Tok>)
    ensures var ts := [Ident(name), LP] + ParamToks(f, ids, [RP, Colon] + rest);
            HeaderAt(ts) > 0 && HeaderAt(ts) <= |ts| && ts[HeaderAt(ts)..] == rest
  {
    var after, n := [RP, Colon] + rest, ParamLength(ids);
    var params := ParamToks(f, ids, after);
    var ts := [Ident(name), LP] + params;
    ParamsScanned(f, ids, after);
    assert ts[2..] == params && params[n] == after[0] && params[n + 1] == after[1];
    FirstRPIs(params, n);
    assert FirstRP(ts[2..]) == n && ts[n + 3] == Colon && |ts| > n + 3;
    assert params[n..][2..] == rest;
    assert ts[n + 4..] == ts[2..][n + 2..] == params[n..][2..];
  }

  lemma {:induction false} PrescanBlocks(m: ModuleNames, f: Func, k: Known, b: nat, rest: seq<Tok>)
    requires FuncOk(m, f) && FuncShaped(f) && NamesOk(f) && b <= |f.blocks|
    ensures Prescan(BlocksToks(m, f, b, [RB] + rest), BlockNames(f, 0)[..b]) == Labels(BlockNames(f, 0))
    ensures SafeFront(BlocksToks(m, f, b, [RB] + rest))
    decreases |f.blocks| - b
  {
    hide Canonical, HeaderAt, InstsToks, ParamToks, InstPrintable, AllShaped, Reserved;
    var names := BlockNames(f, 0);
    if b == |f.blocks| {
      assert names[..b] == names;
    } else {
      var block, after := f.blocks[b], BlocksToks(m, f, b + 1, [RB] + rest);
      PrescanBlocks(m, f, k, b + 1, rest);
      PrescanBody(m, f, k, b, after, names[..b + 1]);
      HeaderScanned(f, block.name, block.params, InstsToks(m, f, block.insts, after));
      assert names[b] == block.name && names[..b + 1] == names[..b] + [block.name];
      assert block.name !in names[..b];
    }
  }

  lemma PrescanBody(m: ModuleNames, f: Func, k: Known, b: nat, rest: seq<Tok>, found: seq<string>)
    requires FuncOk(m, f) && FuncShaped(f) && b < |f.blocks| && SafeFront(rest)
    ensures Prescan(InstsToks(m, f, f.blocks[b].insts, rest), found) == Prescan(rest, found)
  {
    hide Canonical, InstOk, Shaped, Prescan, SafeFront, InstsToks;
    var block := f.blocks[b];
    assert BlockPrintable(m, f, block);
    forall i | 0 <= i < |block.insts|
      ensures InstOk(m, f, block.insts[i])
    {
      assert InstPrintable(m, f, block.insts[i]);
    }
    PrescanInsts(m, f, k, block.insts, rest, found);
  }

  // --- closing the function --------------------------------------------------------------------------

  predicate Final(f: Func, o: Operand) {
    o.kind == OpValue ==> 0 < o.a <= |f.vals| && o.ty == f.vals[o.a - 1].ty
  }

  predicate AllFinal(f: Func, os: seq<Operand>) {
    forall i | 0 <= i < |os| :: Final(f, os[i])
  }

  predicate InstFinal(f: Func, inst: Inst) {
    AllFinal(f, inst.ops) && forall i | 0 <= i < |inst.edges| :: AllFinal(f, inst.edges[i].args)
  }

  lemma BareFinal(m: ModuleNames, f: Func, o: Operand, ty: nat)
    requires BareAtom(m, f, o, ty)
    ensures Final(f, o)
  {
  }

  lemma ItemsFinal(m: ModuleNames, f: Func, os: seq<Operand>, call: bool)
    requires ItemsOk(m, f, os, call)
    ensures AllFinal(f, os)
  {
    forall i | 0 <= i < |os|
      ensures Final(f, os[i])
    {
      assert ItemOk(m, f, os[i], call);
    }
  }

  lemma InstIsFinal(m: ModuleNames, f: Func, inst: Inst)
    requires InstOk(m, f, inst)
    ensures InstFinal(f, inst)
  {
    hide BareAtom, ItemsOk, EdgesOk, CallFlagsOk, FlowOk, MemFlagsOk, TailOk, Final;
    ShapeOk(m, f, inst);
    if inst.op == OP_CALL {
      ItemsFinal(m, f, ArgsOf(inst), true);
      if inst.subop == CALL_INDIRECT {
        BareFinal(m, f, inst.ops[0], TYPE_PTR);
        assert inst.ops == [inst.ops[0]] + ArgsOf(inst);
      }
    } else if inst.op >= IR_RET {
      TerminatorFinal(m, f, inst);
    } else {
      SimpleFinal(m, f, inst);
    }
  }

  lemma TerminatorFinal(m: ModuleNames, f: Func, inst: Inst)
    requires TerminatorOk(m, f, inst)
    ensures InstFinal(f, inst)
  {
    hide BareAtom, FlowOk, Final, ItemsOk;
    forall i | 0 <= i < |inst.edges|
      ensures AllFinal(f, inst.edges[i].args)
    {
      assert EdgeOk(m, f, inst.edges[i]);
      ItemsFinal(m, f, inst.edges[i].args, false);
    }
    if |inst.ops| == 1 {
      BareFinal(m, f, inst.ops[0], if inst.op == OP_CONDBR then TYPE_I32 else inst.ops[0].ty);
    }
  }

  // Every operand of the other opcodes is bare.
  lemma SimpleFinal(m: ModuleNames, f: Func, inst: Inst)
    requires InstOk(m, f, inst) && inst.op < IR_RET && inst.op != OP_CALL && Shaped(inst)
    ensures InstFinal(f, inst)
  {
    hide BareAtom, CallFlagsOk, FlowOk, MemFlagsOk, TailOk, Final, ElemType;
    forall i | 0 <= i < |inst.ops|
      ensures Final(f, inst.ops[i])
    {
      var ty := SomeType(m, f, inst, i);
      BareFinal(m, f, inst.ops[i], ty);
    }
  }

  lemma SomeType(m: ModuleNames, f: Func, inst: Inst, i: nat) returns (ty: nat)
    requires InstOk(m, f, inst) && inst.op < IR_RET && inst.op != OP_CALL && Shaped(inst) && i < |inst.ops|
    ensures BareAtom(m, f, inst.ops[i], ty)
  {
    hide BareAtom, CallFlagsOk, FlowOk, MemFlagsOk, TailOk, ElemType;
    if IsBinary(inst.op) {
      ty := inst.ty;
    } else if inst.op == IR_ICMP || inst.op == IR_FCMP || IsCast(inst.op) || Arithmetic(inst.op) {
      ty := inst.ops[i].ty;
    } else if inst.op == OP_SELECT {
      ty := if i == 0 then TYPE_I32 else inst.ty;
    } else if inst.op == OP_ATOMICRMW || inst.op == OP_CMPXCHG {
      ty := if i == 0 then TYPE_PTR else inst.ty;
    } else if inst.op == OP_PTRADD {
      ty := if i == 0 then TYPE_PTR else TYPE_I64;
    } else if inst.op == OP_STORE {
      ty := if i == 0 then inst.ops[0].ty else TYPE_PTR;
    } else if inst.op == OP_MEMCPY || inst.op == OP_MEMSET {
      ty := if i == 2 then TYPE_I64 else if i == 1 && inst.op == OP_MEMSET then TYPE_I32 else TYPE_PTR;
    } else {
      ty := if inst.op == OP_ALLOCA then TYPE_I64 else TYPE_PTR;
    }
  }

  lemma SlotResolves(m: ModuleNames, f: Func, s: Slot, o: Operand)
    requires Leads(s, o) && Final(f, o)
    ensures Resolve(StateAt(m, f, |f.vals|), s) == Resolved(o)
  {
    if s.pending.Pending? {
      NamesMean(|f.vals|, o.a);
      assert TypesTo(f, |f.vals|)[o.a - 1] == o.ty;
    }
  }

  lemma SlotsResolve(m: ModuleNames, f: Func, ss: seq<Slot>, os: seq<Operand>)
    requires AllLead(ss, os) && AllFinal(f, os)
    ensures AllResolve(StateAt(m, f, |f.vals|), ss) && ResolveAll(StateAt(m, f, |f.vals|), ss) == os
  {
    hide Leads, Final, Resolve, StateAt;
    forall i | 0 <= i < |ss|
      ensures Resolve(StateAt(m, f, |f.vals|), ss[i]) == Resolved(os[i])
    {
      SlotResolves(m, f, ss[i], os[i]);
    }
  }

  lemma DropFinal(f: Func, inst: Inst, n: nat)
    requires InstFinal(f, inst)
    ensures InstFinal(f, DropInst(inst, n))
  {
    forall i | 0 <= i < |inst.ops|
      ensures Final(f, DropInst(inst, n).ops[i])
    {
      assert Final(f, inst.ops[i]);
    }
  }

  lemma InstResolvesTo(m: ModuleNames, f: Func, x: SlotInst, inst: Inst)
    requires InstLeads(x, inst) && InstFinal(f, inst)
    ensures var st := StateAt(m, f, |f.vals|); InstResolves(st, x) && ResolveInst(st, x) == inst
  {
    hide Leads, Final, StateAt, AllResolve, ResolveAll, AllLead, AllFinal;
    var st := StateAt(m, f, |f.vals|);
    SlotsResolve(m, f, x.ops, inst.ops);
    forall i | 0 <= i < |x.edges|
      ensures EdgeResolves(st, x.edges[i]) && ResolveEdge(st, x.edges[i]) == inst.edges[i]
    {
      assert EdgeLeads(x.edges[i], inst.edges[i]);
      SlotsResolve(m, f, x.edges[i].args, inst.edges[i].args);
    }
    assert ResolveInst(st, x).edges == inst.edges;
  }

  // What a block comes back as.
  function DropBlock(f: Func, b: nat): Block
    requires b < |f.blocks|
  {
    f.blocks[b].(insts := DropInsts(f, b))
  }

  function DropBlocks(f: Func): (r: seq<Block>)
    ensures |r| == |f.blocks|
  {
    seq(|f.blocks|, b requires 0 <= b < |f.blocks| => DropBlock(f, b))
  }

  lemma BlockResolvesTo(m: ModuleNames, f: Func, x: SlotBlock, b: nat)
    requires FuncOk(m, f) && b < |f.blocks| && BlockLeads(x, f, b)
    ensures var st := StateAt(m, f, |f.vals|); BlockResolves(st, x) && ResolveBlock(st, x) == DropBlock(f, b)
  {
    hide Canonical, StateAt, InstOk, InstLeads, InstFinal, InstResolves, ResolveInst, DropInst, AtInst;
    var st, block := StateAt(m, f, |f.vals|), f.blocks[b];
    assert BlockPrintable(m, f, block);
    forall i | 0 <= i < |x.insts|
      ensures InstResolves(st, x.insts[i]) && ResolveInst(st, x.insts[i]) == DropInsts(f, b)[i]
    {
      assert InstPrintable(m, f, block.insts[i]);
      InstIsFinal(m, f, block.insts[i]);
      DropFinal(f, block.insts[i], AtInst(f, b, i + 1));
      InstResolvesTo(m, f, x.insts[i], DropInsts(f, b)[i]);
    }
    assert ResolveBlock(st, x).insts == DropInsts(f, b);
  }

  // --- the function --------------------------------------------------------------------------------------

  predicate HeaderOk(m: ModuleNames, f: Func, h: Header) {
    && h.ret <= TYPE_VOID && h.name in m.syms && |h.params| == |f.paramVals|
    && (forall i | 0 <= i < |h.params| :: ParamMarkOk(h.params[i])) && FuncMarksOk(h.marks)
  }

  lemma ParamMarkLonger(p: ParamMark, rest: seq<Tok>)
    ensures |ParamMarkToks(p, rest)| >= |rest|
  {
    var x := Word(p.onstack, "onstack", StackAlignToks(p.align, Word(p.even, "even", Word(p.restricted, "restrict", rest))));
    assert |x| >= |rest| && |ByvalToks(p.byval, x)| >= |x|;
  }

  lemma {:induction false} FuncParamsLonger(f: Func, ids: seq<nat>, marks: seq<ParamMark>, rest: seq<Tok>)
    ensures |FuncParamToks(f, ids, marks, rest)| >= |rest|
    decreases |ids|
  {
    hide ParamMarkToks;
    if ids != [] {
      var after := [ValTok(f, ids[0])] + if |ids| == 1 then rest else [Comma] + FuncParamToks(f, ids[1..], LaterMarks(marks), rest);
      if |ids| > 1 {
        FuncParamsLonger(f, ids[1..], LaterMarks(marks), rest);
      }
      ParamMarkLonger(FirstMark(marks), after);
    }
  }

  // One parameter is read, up to what follows its name.
  lemma OneParam(m: ModuleNames, f: Func, n: nat, mark: ParamMark, after: seq<Tok>)
    requires Canonical(f) && n < |f.vals| && f.vals[n].ty <= TYPE_VOID && ParamMarkOk(mark)
    ensures var at := [ValTok(f, n + 1)] + after;
            var ts := [Ident(TypeName(f.vals[n].ty))] + ParamMarkToks(mark, at);
            && TypeOfTok(Front(ts)) == f.vals[n].ty && TakeParamMark(ts[1..]) == Clause(mark, at) && |at| < |ts|
            && at[0] == Pident(Decimal(n)) && at[1..] == after
            && Append(StateAt(m, f, n), f.vals[n].ty, Named(Decimal(n))) == Appended(n + 1, StateAt(m, f, n + 1))
  {
    hide Canonical, Append, StateAt, ValTok, TypeName, TypeNumber, ParamMarkToks, TakeParamMark;
    var at := [ValTok(f, n + 1)] + after;
    var ts := [Ident(TypeName(f.vals[n].ty))] + ParamMarkToks(mark, at);
    ValTokIs(f, n + 1);
    TypeTokBack(f.vals[n].ty);
    ParamMarkBack(mark, at);
    ParamMarkLonger(mark, at);
    OneMore(m, f, n);
    assert ts[1..] == ParamMarkToks(mark, at);
  }

  lemma LastParam(m: ModuleNames, f: Func, n: nat, mark: ParamMark, rest: seq<Tok>)
    requires Canonical(f) && n < |f.vals| && f.vals[n].ty <= TYPE_VOID && ParamMarkOk(mark) && EndsParams(rest)
    ensures var ts := [Ident(TypeName(f.vals[n].ty))] + ParamMarkToks(mark, [ValTok(f, n + 1)] + rest);
            ParseMarkedParams(StateAt(m, f, n), ts) == Parsed(([n + 1], [mark]), StateAt(m, f, n + 1), rest)
  {
    hide Canonical, Append, StateAt, ValTok, TypeName, TypeOfTok, ParamMarkToks, TakeParamMark;
    OneParam(m, f, n, mark, rest);
    var at := [ValTok(f, n + 1)] + rest;
    assert |at| > 1 ==> at[1] == rest[0];
    assert |at| > 2 ==> at[2] == rest[1];
  }

  lemma MoreParams(m: ModuleNames, f: Func, n: nat, mark: ParamMark, more: seq<Tok>)
    requires Canonical(f) && n < |f.vals| && f.vals[n].ty <= TYPE_VOID && ParamMarkOk(mark) && Front(more).Ident?
    ensures var ts := [Ident(TypeName(f.vals[n].ty))] + ParamMarkToks(mark, [ValTok(f, n + 1)] + ([Comma] + more));
            ParseMarkedParams(StateAt(m, f, n), ts) ==
              match ParseMarkedParams(StateAt(m, f, n + 1), more)
              case Fail => Fail
              case Parsed(ps, st, rest) => Parsed(([n + 1] + ps.0, [mark] + ps.1), st, rest)
  {
    hide Canonical, Append, StateAt, ValTok, TypeName, TypeOfTok, ParamMarkToks, TakeParamMark;
    OneParam(m, f, n, mark, [Comma] + more);
    var at := [ValTok(f, n + 1)] + ([Comma] + more);
    assert at[1] == Comma && at[2..] == more && at[2] == more[0];
  }

  lemma IdsFrom(f: Func, n: nat, ids: seq<nat>)
    requires IdsOk(f, ids) && ids != [] && n + |ids| <= |f.vals| && ids[0] == n + 1
    ensures Renumbering.TypeOf(f, ids[0]) == f.vals[n].ty <= TYPE_VOID && IdsOk(f, ids[1..])
  {
  }

  lemma {:induction false} MarkedParamsBack(m: ModuleNames, f: Func, n: nat, ids: seq<nat>, marks: seq<ParamMark>, rest: seq<Tok>)
    requires Canonical(f) && IdsOk(f, ids) && ids != [] && n + |ids| <= |f.vals| && EndsParams(rest)
    requires |marks| == |ids| && (forall j | 0 <= j < |ids| :: ids[j] == n + j + 1 && ParamMarkOk(marks[j]))
    ensures ParseMarkedParams(StateAt(m, f, n), FuncParamToks(f, ids, marks, rest)) ==
              Parsed((ids, marks), StateAt(m, f, n + |ids|), rest)
    decreases |ids|
  {
    hide Canonical, StateAt, ValTok, TypeName, ParamMarkToks, ParseMarkedParams, ParamMarkOk, IdsOk, EndsParams, FuncParamToks;
    IdsFrom(f, n, ids);
    FuncParamsUnfold(f, ids, marks, rest);
    SplitFirst(ids, marks, n + 1);
    if |ids| == 1 {
      LastParam(m, f, n, marks[0], rest);
    } else {
      MarkedFront(f, ids[1..], marks[1..], rest);
      MoreParams(m, f, n, marks[0], FuncParamToks(f, ids[1..], marks[1..], rest));
      MarkedParamsBack(m, f, n + 1, ids[1..], marks[1..], rest);
    }
  }

  lemma SplitFirst(ids: seq<nat>, marks: seq<ParamMark>, first: nat)
    requires |marks| == |ids| > 0 && ids[0] == first
    ensures ids == [first] + ids[1..] && marks == [marks[0]] + marks[1..] && (|ids| == 1 ==> ids == [first] && marks == [marks[0]])
  {
  }

  lemma FuncParamsUnfold(f: Func, ids: seq<nat>, marks: seq<ParamMark>, rest: seq<Tok>)
    requires |marks| == |ids| > 0
    ensures FuncParamToks(f, ids, marks, rest) ==
              [Ident(TypeName(Renumbering.TypeOf(f, ids[0])))] + ParamMarkToks(marks[0],
                [ValTok(f, ids[0])] + if |ids| == 1 then rest else [Comma] + FuncParamToks(f, ids[1..], marks[1..], rest))
  {
  }

  lemma MarkedFront(f: Func, ids: seq<nat>, marks: seq<ParamMark>, rest: seq<Tok>)
    requires ids != []
    ensures Front(FuncParamToks(f, ids, marks, rest)).Ident?
  {
    hide ParamMarkToks, TypeName, ValTok;
  }

  lemma FuncParamsBack(m: ModuleNames, f: Func, h: Header, rest: seq<Tok>)
    requires FuncOk(m, f) && HeaderOk(m, f, h) && |f.paramVals| <= |f.vals|
    ensures ParseFuncParams(m.syms, FuncParamToks(f, f.paramVals, h.params, ParamsEnd(h, f) + rest)) ==
              Parsed((f.paramVals, h.params, h.variadic), StateAt(m, f, |f.paramVals|), rest)
  {
    hide Canonical, ParseMarkedParams, FuncParamToks, BlockPrintable;
    var after := ParamsEnd(h, f) + rest;
    assert StateAt(m, f, 0) == State(map[], [], m.syms);
    if f.paramVals == [] {
      NoFuncParams(f, h.params, after);
      assert if h.variadic then after[2..] == rest else after[1..] == rest;
    } else {
      FirstParams(m, f);
      MarkedFront(f, f.paramVals, h.params, after);
      MarkedParamsBack(m, f, 0, f.paramVals, h.params, after);
      assert if h.variadic then after[3..] == rest else after[1..] == rest;
    }
  }

  lemma NoFuncParams(f: Func, marks: seq<ParamMark>, rest: seq<Tok>)
    ensures FuncParamToks(f, [], marks, rest) == rest
  {
  }

  lemma FirstParams(m: ModuleNames, f: Func)
    requires FuncOk(m, f)
    ensures |f.paramVals| <= |f.vals| && AtBlock(f, 0) == |f.paramVals|
    ensures forall j | 0 <= j < |f.paramVals| :: f.paramVals[j] == j + 1
  {
    hide Canonical, BlockPrintable;
    Renumber.ParamsUpcoming(f);
    ParamsNext(f, 0, f.paramVals);
    ParamIdsNonZero(f, f.paramVals);
    AllNonZero(f.paramVals);
  }

  lemma NameKnown(m: ModuleNames, h: Header)
    requires Distinct(m.syms) && h.name in m.syms
    ensures Probing.Inserted(m.syms, h.name) == m.syms
  {
  }

  lemma HeaderParts(m: ModuleNames, h: Header, f: Func, rest: seq<Tok>)
    requires FuncShaped(f)
    ensures var marks := FuncMarkToks(h.marks, [LB] + BlocksToks(m, f, 0, [RB] + rest));
            var ts := FuncToks(m, h, f, rest);
            && |ts| > 3 && ts[0] == Ident("func")
            && ts[1..][..3] == [Ident(TypeName(h.ret)), SymTok(h.name), LP]
            && ts[1..][3..] == FuncParamToks(f, f.paramVals, h.params, ParamsEnd(h, f) + marks)
  {
    hide TypeName, SymTok, FuncParamToks, BlocksToks, FuncMarkToks, ParamsEnd;
  }

  // Everything comes back but the flags of forward call arguments.
  lemma FuncBack(m: ModuleNames, h: Header, f: Func, funcs: map<string, nat>, rest: seq<Tok>)
    requires FuncOk(m, f) && FuncShaped(f) && NamesOk(f) && HeaderOk(m, f, h) && FuncsKnown(m, Known(map[], funcs))
    ensures ParseFunc(funcs, m.syms, FuncToks(m, h, f, rest)[1..]) ==
              FuncResult(ParsedFunc(h, f.paramVals, DropBlocks(f), TypesTo(f, |f.vals|)), m.syms, rest)
  {
    hide Canonical, BlockPrintable, StateAt, ParseFuncParams, FuncParamToks, BlocksToks, ParseFuncBody, TypeName, TypeNumber, SymTok,
         DropBlock, AtBlock, FuncToks, ParamsEnd, NamesOk, FuncsKnown, FuncMarkToks, TakeFuncMarks;
    HeaderParts(m, h, f, rest);
    var body := BlocksToks(m, f, 0, [RB] + rest);
    TypeTokBack(h.ret);
    SymTokBack(h.name);
    FirstParams(m, f);
    FuncParamsBack(m, f, h, FuncMarkToks(h.marks, [LB] + body));
    FuncMarksBack(h.marks, [LB] + body);
    assert ([LB] + body)[1..] == body;
    FuncBodyBack(m, h, f, funcs, rest);
  }

  lemma FuncBodyBack(m: ModuleNames, h: Header, f: Func, funcs: map<string, nat>, rest: seq<Tok>)
    requires FuncOk(m, f) && FuncShaped(f) && NamesOk(f) && h.name in m.syms && FuncsKnown(m, Known(map[], funcs))
    requires |f.paramVals| <= |f.vals|
    ensures ParseFuncBody(funcs, h, f.paramVals, StateAt(m, f, |f.paramVals|), BlocksToks(m, f, 0, [RB] + rest)) ==
              FuncResult(ParsedFunc(h, f.paramVals, DropBlocks(f), TypesTo(f, |f.vals|)), m.syms, rest)
  {
    hide Canonical, BlockPrintable, StateAt, BlocksToks, Prescan, ParseBlocks, DropBlock, ResolveBlock, BlockResolves, BlockLeads,
         Numbered, AtBlock, NamesOk, BlocksKnown, FuncsKnown;
    var body := BlocksToks(m, f, 0, [RB] + rest);
    var known := Known(Numbered(BlockNames(f, 0)), funcs);
    FirstParams(m, f);
    NameKnown(m, h);
    PrescanBlocks(m, f, known, 0, rest);
    assert BlockNames(f, 0)[..0] == [];
    NamesAreKnown(f, funcs);
    SameFuncs(m, known, funcs);
    BlocksBack(m, f, known, 0, rest);
    KeepsSyms(m, f);
    var xs := ParseBlocks(known, StateAt(m, f, |f.paramVals|), body).value;
    BlocksResolveTo(m, f, xs);
  }

  lemma SameFuncs(m: ModuleNames, k: Known, funcs: map<string, nat>)
    requires FuncsKnown(m, Known(map[], funcs)) && k.funcs == funcs
    ensures FuncsKnown(m, k)
  {
  }

  lemma KeepsSyms(m: ModuleNames, f: Func)
    requires |f.paramVals| <= |f.vals|
    ensures var st := StateAt(m, f, |f.paramVals|); st.(syms := m.syms) == st
    ensures StateAt(m, f, |f.vals|).syms == m.syms && StateAt(m, f, |f.vals|).types == TypesTo(f, |f.vals|)
    ensures StateAt(m, f, |f.paramVals|).syms == m.syms
  {
  }

  lemma BlocksResolveTo(m: ModuleNames, f: Func, xs: seq<SlotBlock>)
    requires FuncOk(m, f) && BlocksLead(xs, f, 0)
    ensures var st := StateAt(m, f, |f.vals|);
            && (forall b | 0 <= b < |xs| :: BlockResolves(st, xs[b]))
            && seq(|xs|, b requires 0 <= b < |xs| => ResolveBlock(st, xs[b])) == DropBlocks(f)
  {
    hide Canonical, BlockPrintable, StateAt, ResolveBlock, BlockResolves, BlockLeads, DropBlock;
    var st := StateAt(m, f, |f.vals|);
    forall b | 0 <= b < |xs|
      ensures BlockResolves(st, xs[b]) && ResolveBlock(st, xs[b]) == DropBlock(f, b)
    {
      assert BlockLeads(xs[b], f, 0 + b);
      BlockResolvesTo(m, f, xs[b], b);
    }
  }

  // --- exactly when nothing is lost -------------------------------------------------------------------------

  // A call argument with a flag names a value defined after the call.
  predicate LosesFlag(f: Func, b: nat, i: nat, j: nat) {
    && b < |f.blocks| && i < |f.blocks[b].insts| && j < |f.blocks[b].insts[i].ops|
    && var o := f.blocks[b].insts[i].ops[j]; Forward(o, AtInst(f, b, i + 1)) && o.argflags != 0
  }

  // The function as the structural comparison sees it: instructions without their identity.
  function Printed(h: Header, f: Func): ParsedFunc {
    ParsedFunc(h, f.paramVals, seq(|f.blocks|, b requires 0 <= b < |f.blocks| => Anonymous(f.blocks[b])), TypesTo(f, |f.vals|))
  }

  function Anonymous(block: Block): Block {
    block.(insts := seq(|block.insts|, i requires 0 <= i < |block.insts| => block.insts[i].(addr := 0)))
  }

  lemma DropIsSame(inst: Inst, n: nat)
    ensures DropInst(inst, n) == inst.(addr := 0) <==> forall j | 0 <= j < |inst.ops| :: !Forward(inst.ops[j], n) || inst.ops[j].argflags == 0
  {
    forall j | 0 <= j < |inst.ops|
      ensures Drop(inst.ops[j], n) == inst.ops[j] <==> !Forward(inst.ops[j], n) || inst.ops[j].argflags == 0
    {
      OneDropped(inst.ops[j], n);
    }
    if forall j | 0 <= j < |inst.ops| :: !Forward(inst.ops[j], n) || inst.ops[j].argflags == 0 {
      assert DropAll(inst.ops, n) == inst.ops;
    }
    if DropInst(inst, n) == inst.(addr := 0) {
      assert DropAll(inst.ops, n) == inst.ops;
      assert forall j | 0 <= j < |inst.ops| :: DropAll(inst.ops, n)[j] == Drop(inst.ops[j], n);
    }
  }

  lemma OneDropped(o: Operand, n: nat)
    ensures Drop(o, n) == o <==> !Forward(o, n) || o.argflags == 0
  {
    assert o.argflags == 0 ==> o.(argflags := 0) == o;
  }

  lemma DropBlockIsSame(f: Func, b: nat)
    requires b < |f.blocks|
    ensures DropBlock(f, b) == Anonymous(f.blocks[b]) <==> forall i: nat, j: nat :: !LosesFlag(f, b, i, j)
  {
    hide AtInst, DropInst;
    var block := f.blocks[b];
    forall i: nat | i < |block.insts|
      ensures DropInsts(f, b)[i] == Anonymous(block).insts[i] <==> forall j: nat :: !LosesFlag(f, b, i, j)
    {
      DropIsSame(block.insts[i], AtInst(f, b, i + 1));
      LosesAt(f, b, i);
    }
    if DropBlock(f, b) == Anonymous(block) {
      forall i: nat, j: nat
        ensures !LosesFlag(f, b, i, j)
      {
        assert i < |block.insts| ==> DropInsts(f, b)[i] == Anonymous(block).insts[i];
      }
    }
    if forall i: nat, j: nat :: !LosesFlag(f, b, i, j) {
      assert DropInsts(f, b) == Anonymous(block).insts;
    }
  }

  lemma LosesAt(f: Func, b: nat, i: nat)
    requires b < |f.blocks| && i < |f.blocks[b].insts|
    ensures var ops := f.blocks[b].insts[i].ops;
            (forall j: nat :: !LosesFlag(f, b, i, j)) <==>
            forall j | 0 <= j < |ops| :: !Forward(ops[j], AtInst(f, b, i + 1)) || ops[j].argflags == 0
  {
    hide AtInst;
    var ops := f.blocks[b].insts[i].ops;
    if forall j: nat :: !LosesFlag(f, b, i, j) {
      forall j: nat | j < |ops|
        ensures !Forward(ops[j], AtInst(f, b, i + 1)) || ops[j].argflags == 0
      {
        assert !LosesFlag(f, b, i, j);
      }
    }
  }

  // The law the printer and the parser promise together, and where it ends.
  lemma FuncRoundTripExactly(m: ModuleNames, h: Header, f: Func, funcs: map<string, nat>, rest: seq<Tok>)
    requires FuncOk(m, f) && FuncShaped(f) && NamesOk(f) && HeaderOk(m, f, h) && FuncsKnown(m, Known(map[], funcs))
    ensures ParseFunc(funcs, m.syms, FuncToks(m, h, f, rest)[1..]) == FuncResult(Printed(h, f), m.syms, rest) <==>
              forall b: nat, i: nat, j: nat :: !LosesFlag(f, b, i, j)
  {
    hide FuncOk, FuncShaped, NamesOk, ParseFunc, FuncToks, DropBlock, Anonymous, LosesFlag, FuncsKnown;
    FuncBack(m, h, f, funcs, rest);
    forall b: nat | b < |f.blocks|
      ensures DropBlocks(f)[b] == Printed(h, f).blocks[b] <==> forall i: nat, j: nat :: !LosesFlag(f, b, i, j)
    {
      DropBlockIsSame(f, b);
    }
    NoSuchBlock(f);
    if forall b: nat, i: nat, j: nat :: !LosesFlag(f, b, i, j) {
      assert DropBlocks(f) == Printed(h, f).blocks;
    }
    if DropBlocks(f) == Printed(h, f).blocks {
      forall b: nat, i: nat, j: nat
        ensures !LosesFlag(f, b, i, j)
      {
        assert b < |f.blocks| ==> DropBlocks(f)[b] == Printed(h, f).blocks[b];
      }
    }
  }

  lemma NoSuchBlock(f: Func)
    ensures forall b: nat, i: nat, j: nat | b >= |f.blocks| :: !LosesFlag(f, b, i, j)
  {
  }

  // Renumbering leaves a function ready to print.
  lemma RenumberedCanonical(f: Func)
    requires Renumbering.SingleDefs(f)
    ensures Canonical(Renumbering.Renumbered(f))
  {
    hide Renumbering.Renumbered, Renumbering.Defs;
    Renumbering.NumberedInOrder(f);
    Renumbering.DefsFit(f);
  }
}
