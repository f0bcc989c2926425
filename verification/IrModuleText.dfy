/** The round trip of a whole module through the printer and the parser, first on
    tokens and then on text. */
module IrModuleText {
  import opened Shared
  import opened Ir
  import opened IrNames
  import opened IrTokens
  import opened IrMarks
  import opened IrPrint
  import opened IrParse
  import opened IrRecords
  import opened IrTripOperands
  import opened IrTripMarks
  import opened IrTripMemory
  import opened IrTripScan
  import opened IrTripShape
  import opened IrTripFunc
  import opened IrRoundTrip
  import Probing
  import IrLex
  import Renumbering

  // --- what follows a function is only appended --------------------------------------------------

  predicate NoBraces(ts: seq<Tok>) {
    forall i | 0 <= i < |ts| :: !ts[i].LB? && !ts[i].RB? && !ts[i].Eof?
  }

  lemma {:induction false} ParamsJoin(f: Func, ids: seq<nat>, a: seq<Tok>, b: seq<Tok>)
    ensures ParamToks(f, ids, a + b) == ParamToks(f, ids, a) + b
    decreases |ids|
  {
    hide ValTok, TypeName;
    if |ids| > 1 {
      ParamsJoin(f, ids[1..], a, b);
    }
  }

  lemma {:induction false} InstsJoin(m: ModuleNames, f: Func, insts: seq<Inst>, a: seq<Tok>, b: seq<Tok>)
    requires AllShaped(insts)
    ensures InstsToks(m, f, insts, a + b) == InstsToks(m, f, insts, a) + b
    decreases |insts|
  {
    hide InstToks, Shaped;
    if insts != [] {
      InstsJoin(m, f, insts[1..], a, b);
      InstJoin(m, f, insts[0], InstsToks(m, f, insts[1..], a), b);
    }
  }

  lemma {:induction false} InstsBraceless(m: ModuleNames, f: Func, insts: seq<Inst>, rest: seq<Tok>)
    requires AllShaped(insts) && NoBraces(rest)
    ensures NoBraces(InstsToks(m, f, insts, rest))
    decreases |insts|
  {
    hide InstToks, Shaped, NoBraces;
    if insts != [] {
      var more := InstsToks(m, f, insts[1..], rest);
      InstsBraceless(m, f, insts[1..], rest);
      InstJoin(m, f, insts[0], [], more);
      assert [] + more == more;
      EmptyTame();
      TameInst(m, f, insts[0], []);
      TameBraceless(InstToks(m, f, insts[0], []), more);
    }
  }

  lemma TameBraceless(ts: seq<Tok>, rest: seq<Tok>)
    requires Tame(ts) && NoBraces(rest)
    ensures NoBraces(ts + rest)
  {
  }

  lemma ParamsBraceless(f: Func, ids: seq<nat>, rest: seq<Tok>)
    requires NoBraces(rest)
    ensures NoBraces(ParamToks(f, ids, rest))
  {
    hide ParamToks;
    ParamsScanned(f, ids, rest);
    var ts, n := ParamToks(f, ids, rest), ParamLength(ids);
    assert forall i | n <= i < |ts| :: ts[i] == ts[n..][i - n];
  }

  lemma BlockJoin(m: ModuleNames, f: Func, block: Block, a: seq<Tok>, b: seq<Tok>)
    requires AllShaped(block.insts)
    ensures BlockToks(m, f, block, a + b) == BlockToks(m, f, block, a) + b
  {
    hide ParamToks, InstsToks, AllShaped;
    var body := InstsToks(m, f, block.insts, a);
    InstsJoin(m, f, block.insts, a, b);
    assert [RP, Colon] + (body + b) == [RP, Colon] + body + b;
    ParamsJoin(f, block.params, [RP, Colon] + body, b);
  }

  lemma {:induction false} BlocksJoin(m: ModuleNames, f: Func, i: nat, a: seq<Tok>, b: seq<Tok>)
    requires FuncShaped(f) && i <= |f.blocks|
    ensures BlocksToks(m, f, i, a + b) == BlocksToks(m, f, i, a) + b
    decreases |f.blocks| - i
  {
    hide BlockToks, AllShaped;
    if i < |f.blocks| {
      BlocksJoin(m, f, i + 1, a, b);
      BlockJoin(m, f, f.blocks[i], BlocksToks(m, f, i + 1, a), b);
    }
  }

  lemma {:induction false} BlocksBraceless(m: ModuleNames, f: Func, i: nat)
    requires FuncShaped(f) && i <= |f.blocks|
    ensures NoBraces(BlocksToks(m, f, i, []))
    decreases |f.blocks| - i
  {
    hide AllShaped, NoBraces, InstsToks, ParamToks;
    if i < |f.blocks| {
      var block, after := f.blocks[i], BlocksToks(m, f, i + 1, []);
      BlocksBraceless(m, f, i + 1);
      InstsBraceless(m, f, block.insts, after);
      var body := InstsToks(m, f, block.insts, after);
      BracelessFront([RP, Colon], body);
      ParamsBraceless(f, block.params, [RP, Colon] + body);
      BracelessFront([Ident(block.name), LP], ParamToks(f, block.params, [RP, Colon] + body));
    } else {
      BracelessFront([], []);
    }
  }

  lemma BracelessFront(ts: seq<Tok>, rest: seq<Tok>)
    requires rest == [] || NoBraces(rest)
    requires forall i | 0 <= i < |ts| :: !ts[i].LB? && !ts[i].RB? && !ts[i].Eof?
    ensures NoBraces(ts + rest) && (ts == [] && rest == [] ==> NoBraces([]))
  {
  }

  // --- the scan for functions ---------------------------------------------------------------------

  // Inside braces nothing counts.
  lemma {:induction false} ScanInside(ts: seq<Tok>, rest: seq<Tok>, found: seq<string>)
    requires NoBraces(ts)
    ensures PrescanFuncs(ts + rest, 1, found) == PrescanFuncs(rest, 1, found)
    decreases |ts|
  {
    if ts == [] {
      assert ts + rest == rest;
    } else {
      assert (ts + rest)[1..] == ts[1..] + rest;
      ScanInside(ts[1..], rest, found);
    }
  }

  // What the scan passes over outside braces.
  predicate Plain(t: Tok) {
    !t.LB? && !t.RB? && !t.Eof? && !IsWord(t, "func")
  }

  // ts is some plain tokens and then rest.
  predicate PlainUpTo(ts: seq<Tok>, rest: seq<Tok>) {
    |ts| >= |rest| && ts[|ts| - |rest|..] == rest && forall i | 0 <= i < |ts| - |rest| :: Plain(ts[i])
  }

  lemma PlainThen(ts: seq<Tok>, mid: seq<Tok>, rest: seq<Tok>)
    requires PlainUpTo(ts, mid) && PlainUpTo(mid, rest)
    ensures PlainUpTo(ts, rest)
  {
    var n := |ts| - |mid|;
    assert ts[|ts| - |rest|..] == ts[n..][|mid| - |rest|..];
    forall i | 0 <= i < |ts| - |rest|
      ensures Plain(ts[i])
    {
      if i >= n {
        assert ts[i] == ts[n..][i - n] == mid[i - n];
      }
    }
  }

  lemma PlainAhead(front: seq<Tok>, mid: seq<Tok>, rest: seq<Tok>)
    requires (forall i | 0 <= i < |front| :: Plain(front[i])) && PlainUpTo(mid, rest)
    ensures PlainUpTo(front + mid, rest)
  {
    hide Plain;
    assert (front + mid)[|front|..] == mid;
    assert PlainUpTo(front + mid, mid);
    PlainThen(front + mid, mid, rest);
  }

  lemma PlainNothing(rest: seq<Tok>)
    ensures PlainUpTo(rest, rest)
  {
  }

  lemma {:induction false} PlainScanned(ts: seq<Tok>, rest: seq<Tok>, found: seq<string>)
    requires PlainUpTo(ts, rest)
    ensures PrescanFuncs(ts, 0, found) == PrescanFuncs(rest, 0, found)
    decreases |ts|
  {
    if |ts| == |rest| {
      assert ts == rest;
    } else {
      assert Plain(ts[0]);
      assert PlainUpTo(ts[1..], rest) by {
        assert forall i | 0 <= i < |ts| - 1 - |rest| :: ts[1..][i] == ts[i + 1];
        assert ts[1..][|ts| - 1 - |rest|..] == ts[|ts| - |rest|..];
      }
      PlainScanned(ts[1..], rest, found);
    }
  }

  lemma WordPlain(on: bool, word: string, mid: seq<Tok>, rest: seq<Tok>)
    requires PlainUpTo(mid, rest) && word != "func"
    ensures PlainUpTo(Word(on, word, mid), rest)
  {
    hide PlainUpTo;
    if on {
      PlainAhead([Ident(word)], mid, rest);
    }
  }

  lemma ParensPlain(word: string, inner: seq<Tok>, mid: seq<Tok>, rest: seq<Tok>)
    requires PlainUpTo(mid, rest) && word != "func" && forall i | 0 <= i < |inner| :: Plain(inner[i])
    ensures PlainUpTo(InParens(word, inner, mid), rest)
  {
    hide PlainUpTo;
    var front := [Ident(word), LP] + inner + [RP];
    PlainAhead(front, mid, rest);
  }

  lemma VisibilityPlain(v: nat, mid: seq<Tok>, rest: seq<Tok>)
    requires PlainUpTo(mid, rest)
    ensures PlainUpTo(VisibilityToks(v, mid), rest)
  {
    hide PlainUpTo, InParens;
    if v != 0 {
      assert At(VISIBILITIES, v) != "func";
      ParensPlain("visibility", [Ident(At(VISIBILITIES, v))], mid, rest);
    }
  }

  lemma SectionPlain(section: Option<seq<nat>>, mid: seq<Tok>, rest: seq<Tok>)
    requires PlainUpTo(mid, rest)
    ensures PlainUpTo(SectionToks(section, mid), rest)
  {
    hide PlainUpTo, InParens;
    if section.Some? {
      ParensPlain("section", [Str(section.value)], mid, rest);
    }
  }

  lemma StartPlain(word: string, start: Option<nat>, mid: seq<Tok>, rest: seq<Tok>)
    requires PlainUpTo(mid, rest) && word != "func"
    ensures PlainUpTo(StartToks(word, start, mid), rest)
  {
    hide PlainUpTo, InParens;
    if start.Some? {
      PlainAhead([Ident(word)], mid, rest);
      ParensPlain(word, [IntTok(start.value)], mid, rest);
    }
  }

  lemma AbiPlain(abi: nat, leaves: nat, mid: seq<Tok>, rest: seq<Tok>)
    requires PlainUpTo(mid, rest)
    ensures PlainUpTo(AbiToks(abi, leaves, mid), rest)
  {
    hide PlainUpTo, InParens;
    var name := Ident(At(ABI_RETURNS, abi));
    assert At(ABI_RETURNS, abi) != "func";
    assert Plain(name);
    ParensPlain("abi", [name], mid, rest);
    ParensPlain("abi", [name, Comma, IntTok(leaves)], mid, rest);
  }

  lemma FuncMarksPlain(k: FuncMarks, rest: seq<Tok>)
    ensures PlainUpTo(FuncMarkToks(k, rest), rest)
  {
    hide PlainUpTo, Word, VisibilityToks, FuncAlignToks, SectionToks, StartToks, AbiToks, InParens;
    PlainNothing(rest);
    var x15 := Word(k.contract, "contract", rest);
    WordPlain(k.contract, "contract", rest, rest);
    var x14 := Word(k.setjmp, "setjmp", x15);
    WordPlain(k.setjmp, "setjmp", x15, rest);
    var x13 := AbiToks(k.abi, k.leaves, x14);
    AbiPlain(k.abi, k.leaves, x14, rest);
    var x12 := StartToks("destructor", k.dtor, x13);
    StartPlain("destructor", k.dtor, x13, rest);
    var x11 := StartToks("constructor", k.ctor, x12);
    StartPlain("constructor", k.ctor, x12, rest);
    assert x11 == EndMarkToks(k, rest);
    var x10 := SectionToks(k.section, x11);
    SectionPlain(k.section, x11, rest);
    var x9 := Word(k.returnsTwice, "returns_twice", x10);
    WordPlain(k.returnsTwice, "returns_twice", x10, rest);
    var x8 := Word(k.inlineOnly, "inline_only", x9);
    WordPlain(k.inlineOnly, "inline_only", x9, rest);
    var x7 := Word(k.alwaysInline, "always_inline", x8);
    WordPlain(k.alwaysInline, "always_inline", x8, rest);
    var x6 := Word(k.used, "used", x7);
    WordPlain(k.used, "used", x7, rest);
    assert x6 == MiddleMarkToks(k, rest);
    FrontMarksPlain(k, x6, rest);
  }

  lemma FrontMarksPlain(k: FuncMarks, x6: seq<Tok>, rest: seq<Tok>)
    requires PlainUpTo(x6, rest)
    ensures PlainUpTo(Word(k.unproto, "unproto", Word(k.internal, "internal", Word(k.weak, "weak",
              VisibilityToks(k.visibility, FuncAlignToks(k.align, x6))))), rest)
  {
    hide PlainUpTo, Word, VisibilityToks, InParens;
    var x5 := FuncAlignToks(k.align, x6);
    ParensPlain("align", [IntTok(k.align)], x6, rest);
    var x4 := VisibilityToks(k.visibility, x5);
    VisibilityPlain(k.visibility, x5, rest);
    var x3 := Word(k.weak, "weak", x4);
    WordPlain(k.weak, "weak", x4, rest);
    var x2 := Word(k.internal, "internal", x3);
    WordPlain(k.internal, "internal", x3, rest);
    WordPlain(k.unproto, "unproto", x2, rest);
  }

  lemma ParamMarkPlain(p: ParamMark, mid: seq<Tok>, rest: seq<Tok>)
    requires PlainUpTo(mid, rest)
    ensures PlainUpTo(ParamMarkToks(p, mid), rest)
  {
    hide PlainUpTo, Word, InParens;
    var x4 := Word(p.restricted, "restrict", mid);
    WordPlain(p.restricted, "restrict", mid, rest);
    var x3 := Word(p.even, "even", x4);
    WordPlain(p.even, "even", x4, rest);
    var x2 := StackAlignToks(p.align, x3);
    PlainAhead([Ident("stackalign16")], x3, rest);
    ParensPlain("stackalign", [IntTok(p.align)], x3, rest);
    var x1 := Word(p.onstack, "onstack", x2);
    WordPlain(p.onstack, "onstack", x2, rest);
    if p.byval.Some? {
      ParensPlain("byval", [IntTok(p.byval.value)], x1, rest);
    }
  }

  lemma {:induction false} FuncParamsPlain(f: Func, ids: seq<nat>, marks: seq<ParamMark>, mid: seq<Tok>, rest: seq<Tok>)
    requires IdsOk(f, ids) && PlainUpTo(mid, rest)
    ensures PlainUpTo(FuncParamToks(f, ids, marks, mid), rest)
    decreases |ids|
  {
    hide PlainUpTo, ParamMarkToks, TypeName, TypeNumber, ValTok;
    if ids != [] {
      ValTokShape(f, ids[0]);
      NotFunc(Renumbering.TypeOf(f, ids[0]));
      var v := ValTok(f, ids[0]);
      var after := mid;
      if |ids| > 1 {
        FuncParamsPlain(f, ids[1..], LaterMarks(marks), mid, rest);
        var more := FuncParamToks(f, ids[1..], LaterMarks(marks), mid);
        PlainAhead([Comma], more, rest);
        after := [Comma] + more;
      }
      PlainAhead([v], after, rest);
      ParamMarkPlain(FirstMark(marks), [v] + after, rest);
      PlainAhead([Ident(TypeName(Renumbering.TypeOf(f, ids[0])))], ParamMarkToks(FirstMark(marks), [v] + after), rest);
    }
  }

  lemma NotFunc(ty: nat)
    requires ty <= TYPE_VOID
    ensures TypeName(ty) != "func"
  {
    TypeNameBack(ty);
    assert TypeNumber("func") == -1;
  }

  // A header from its return type to its opening brace.
  lemma HeaderPlain(h: Header, f: Func, rest: seq<Tok>)
    requires h.ret <= TYPE_VOID && IdsOk(f, f.paramVals)
    ensures PlainUpTo(HeaderToks(h, f, rest)[1..], [LB] + rest)
    ensures var ts := HeaderToks(h, f, rest); |ts| >= 3 && ts[0] == Ident("func") && ts[1].Ident? && ts[2] == SymTok(h.name)
  {
    hide PlainUpTo, FuncParamToks, FuncMarkToks, TypeName, TypeNumber, SymTok, ParamsEnd;
    var x3 := FuncMarkToks(h.marks, [LB] + rest);
    FuncMarksPlain(h.marks, [LB] + rest);
    EndPlain(h, f);
    PlainAhead(ParamsEnd(h, f), x3, [LB] + rest);
    FuncParamsPlain(f, f.paramVals, h.params, ParamsEnd(h, f) + x3, [LB] + rest);
    var x1 := FuncParamToks(f, f.paramVals, h.params, ParamsEnd(h, f) + x3);
    NotFunc(h.ret);
    SymTokName(h.name);
    var front := [Ident(TypeName(h.ret)), SymTok(h.name), LP];
    PlainAhead(front, x1, [LB] + rest);
    assert HeaderToks(h, f, rest)[1..] == front + x1;
  }

  lemma EndPlain(h: Header, f: Func)
    ensures forall i | 0 <= i < |ParamsEnd(h, f)| :: Plain(ParamsEnd(h, f)[i])
  {
  }

  lemma FuncScanned(m: ModuleNames, h: Header, f: Func, rest: seq<Tok>, found: seq<string>)
    requires FuncShaped(f) && h.ret <= TYPE_VOID && IdsOk(f, f.paramVals) && h.name !in found
    ensures PrescanFuncs(FuncToks(m, h, f, rest), 0, found) == PrescanFuncs(rest, 0, found + [h.name])
    ensures |FuncToks(m, h, f, rest)| > |rest| && FuncToks(m, h, f, rest)[0] == Ident("func")
  {
    hide BlocksToks, NoBraces, SymTok, HeaderToks, PlainUpTo;
    var body, tail := BlocksToks(m, f, 0, []), [RB] + rest;
    BlocksJoin(m, f, 0, [], tail);
    assert [] + tail == tail;
    var ts, after := FuncToks(m, h, f, rest), [LB] + (body + tail);
    assert ts == HeaderToks(h, f, body + tail);
    HeaderPlain(h, f, body + tail);
    SymTokName(h.name);
    PlainScanned(ts[1..], after, found + [h.name]);
    assert after[1..] == body + tail && tail[1..] == rest;
    BlocksBraceless(m, f, 0);
    ScanInside(body, tail, found + [h.name]);
    PlainShorter(ts[1..], after);
  }

  lemma PlainShorter(ts: seq<Tok>, rest: seq<Tok>)
    requires PlainUpTo(ts, rest)
    ensures |ts| >= |rest|
  {
  }

  lemma SymMarksPlain(k: SymMarks, mid: seq<Tok>, rest: seq<Tok>)
    requires PlainUpTo(mid, rest)
    ensures PlainUpTo(SymMarkToks(k, mid), rest)
  {
    hide PlainUpTo, Word, VisibilityToks, InParens;
    var x3 := Word(k.returnsTwice, "returns_twice", mid);
    WordPlain(k.returnsTwice, "returns_twice", mid, rest);
    var x2 := if k.initialExec then InParens("tls", [Ident("initial_exec")], x3) else x3;
    ParensPlain("tls", [Ident("initial_exec")], x3, rest);
    var x1 := VisibilityToks(k.visibility, x2);
    VisibilityPlain(k.visibility, x2, rest);
    WordPlain(k.weak, "weak", x1, rest);
  }

  lemma LinkageNotFunc(linkage: nat)
    ensures At(LINKAGES, linkage) != "func"
  {
  }

  lemma AliasPlain(a: Alias, mid: seq<Tok>, rest: seq<Tok>)
    requires PlainUpTo(mid, rest)
    ensures PlainUpTo(AliasToks(a, mid), rest)
  {
    hide PlainUpTo, Word, VisibilityToks, SymTok, At;
    var x1 := VisibilityToks(a.visibility, mid);
    VisibilityPlain(a.visibility, mid, rest);
    WordPlain(a.weak, "weak", x1, rest);
    LinkageNotFunc(a.linkage);
    SymTokName(a.name);
    SymTokName(a.target);
    PlainAhead([SymTok(a.name), Eq, SymTok(a.target), Ident(At(LINKAGES, a.linkage))], Word(a.weak, "weak", x1), rest);
  }

  lemma GlobalMarksPlain(g: Global, mid: seq<Tok>, rest: seq<Tok>)
    requires PlainUpTo(mid, rest)
    ensures PlainUpTo(GlobalMarkToks(g, mid), rest)
  {
    hide PlainUpTo, Word, VisibilityToks, SectionToks;
    var x7 := VisibilityToks(g.visibility, mid);
    VisibilityPlain(g.visibility, mid, rest);
    var x6 := SectionToks(g.section, x7);
    SectionPlain(g.section, x7, rest);
    var x5 := Word(g.constant, "const", x6);
    WordPlain(g.constant, "const", x6, rest);
    var x4 := Word(g.used, "used", x5);
    WordPlain(g.used, "used", x5, rest);
    var x3 := Word(g.weak, "weak", x4);
    WordPlain(g.weak, "weak", x4, rest);
    var x2 := Word(g.tls, "tls", x3);
    WordPlain(g.tls, "tls", x3, rest);
    WordPlain(g.tentative, "tentative", x2, rest);
  }

  lemma InitPlain(init: Option<seq<nat>>, mid: seq<Tok>, rest: seq<Tok>)
    requires PlainUpTo(mid, rest)
    ensures PlainUpTo(InitToks(init, mid), rest)
  {
    hide PlainUpTo;
    if init.Some? {
      var word := "x" + HexBytes(init.value);
      assert word[0] == 'x';
      assert word != "func";
      PlainAhead([Ident("init"), Ident(word)], mid, rest);
    }
  }

  lemma {:induction false} RelocsPlain(syms: seq<string>, relocs: seq<Reloc>, mid: seq<Tok>, rest: seq<Tok>)
    requires PlainUpTo(mid, rest)
    ensures PlainUpTo(RelocToks(syms, relocs, mid), rest)
    decreases |relocs|
  {
    hide PlainUpTo, SymTok, At;
    if relocs != [] {
      var r := relocs[0];
      RelocsPlain(syms, relocs[1..], mid, rest);
      SymTokName(At(syms, r.symbol));
      PlainAhead([Ident("reloc"), IntTok(r.offset), SymTok(At(syms, r.symbol)), IntTok(r.addend)], RelocToks(syms, relocs[1..], mid), rest);
    }
  }

  lemma GlobalPlain(syms: seq<string>, g: Global, mid: seq<Tok>, rest: seq<Tok>)
    requires PlainUpTo(mid, rest)
    ensures PlainUpTo(GlobalToks(syms, g, mid), rest)
  {
    hide PlainUpTo, SymTok, GlobalMarkToks, InitToks, RelocToks, At;
    var x3 := RelocToks(syms, g.relocs, mid);
    RelocsPlain(syms, g.relocs, mid, rest);
    var x2 := InitToks(g.init, x3);
    InitPlain(g.init, x3, rest);
    GlobalMarksPlain(g, x2, rest);
    LinkageNotFunc(g.linkage);
    SymTokName(g.name);
    PlainAhead([SymTok(g.name), Ident("size"), IntTok(g.size), Ident("align"), IntTok(g.align), Ident(At(LINKAGES, g.linkage))],
               GlobalMarkToks(g, x2), rest);
  }

  // --- records before the functions ----------------------------------------------------------------

  lemma {:induction false} IdentsPlain(idents: seq<seq<nat>>, rest: seq<Tok>)
    ensures PlainUpTo(IdentRecords(idents, rest), rest)
    decreases |idents|
  {
    hide PlainUpTo;
    if idents == [] {
      PlainNothing(rest);
    } else {
      IdentsPlain(idents[1..], rest);
      PlainAhead([Ident("ident"), Str(idents[0])], IdentRecords(idents[1..], rest), rest);
    }
  }

  lemma {:induction false} SymsPlain(syms: seq<string>, marks: seq<SymMarks>, rest: seq<Tok>)
    requires |marks| == |syms|
    ensures PlainUpTo(SymRecords(syms, marks, rest), rest)
    decreases |syms|
  {
    hide PlainUpTo, SymTok, SymMarkToks;
    if syms == [] {
      PlainNothing(rest);
    } else {
      var more := SymRecords(syms[1..], marks[1..], rest);
      SymsPlain(syms[1..], marks[1..], rest);
      SymMarksPlain(marks[0], more, rest);
      SymTokName(syms[0]);
      PlainAhead([Ident("sym"), SymTok(syms[0])], SymMarkToks(marks[0], more), rest);
    }
  }

  lemma {:induction false} AliasesPlain(aliases: seq<Alias>, rest: seq<Tok>)
    ensures PlainUpTo(AliasRecords(aliases, rest), rest)
    decreases |aliases|
  {
    hide PlainUpTo, AliasToks;
    if aliases == [] {
      PlainNothing(rest);
    } else {
      var more := AliasRecords(aliases[1..], rest);
      AliasesPlain(aliases[1..], rest);
      AliasPlain(aliases[0], more, rest);
      PlainAhead([Ident("alias")], AliasToks(aliases[0], more), rest);
    }
  }

  lemma {:induction false} GlobalsPlain(syms: seq<string>, globals: seq<Global>, rest: seq<Tok>)
    ensures PlainUpTo(GlobalRecords(syms, globals, rest), rest)
    decreases |globals|
  {
    hide PlainUpTo, GlobalToks;
    if globals == [] {
      PlainNothing(rest);
    } else {
      var more := GlobalRecords(syms, globals[1..], rest);
      GlobalsPlain(syms, globals[1..], rest);
      GlobalPlain(syms, globals[0], more, rest);
      PlainAhead([Ident("global")], GlobalToks(syms, globals[0], more), rest);
    }
  }

  lemma {:induction false} IdentsBack(ids: map<string, nat>, c: Contents, idents: seq<seq<nat>>, rest: seq<Tok>)
    ensures ParseRecords(ids, c, IdentRecords(idents, rest)) == ParseRecords(ids, c.(idents := c.idents + idents), rest)
    decreases |idents|
  {
    if idents == [] {
      assert c.(idents := c.idents + []) == c;
    } else {
      IdentsBack(ids, c.(idents := c.idents + [idents[0]]), idents[1..], rest);
      assert c.idents + [idents[0]] + idents[1..] == c.idents + idents;
      assert IdentRecords(idents, rest)[2..] == IdentRecords(idents[1..], rest);
    }
  }

  // A record starts with one of the record words, or the text ends.
  lemma SymFront(syms: seq<string>, marks: seq<SymMarks>, rest: seq<Tok>)
    requires |marks| == |syms| && Begins(rest, RECORDS)
    ensures Begins(SymRecords(syms, marks, rest), RECORDS)
  {
    assert "sym" == RECORDS[1];
  }

  lemma AliasFront(aliases: seq<Alias>, rest: seq<Tok>)
    requires Begins(rest, RECORDS)
    ensures Begins(AliasRecords(aliases, rest), RECORDS)
  {
    assert "alias" == RECORDS[2];
  }

  lemma GlobalFront(syms: seq<string>, globals: seq<Global>, rest: seq<Tok>)
    requires Begins(rest, RECORDS)
    ensures Begins(GlobalRecords(syms, globals, rest), RECORDS)
  {
    assert "global" == RECORDS[3];
  }

  lemma FuncFront(m: ModuleNames, funcs: seq<FuncText>)
    requires AllFuncsShaped(funcs)
    ensures Begins(FuncRecords(m, funcs, [Eof]), RECORDS)
  {
    hide FuncParamToks, FuncMarkToks, BlocksToks, TypeName;
    assert "func" == RECORDS[4];
  }

  lemma {:induction false} SymsBack(ids: map<string, nat>, c: Contents, syms: seq<string>, marks: seq<SymMarks>, i: nat, rest: seq<Tok>)
    requires Distinct(syms) && |marks| == |syms| && i <= |syms| && c.syms == syms[..i] && c.marks == marks[..i]
    requires (forall k | 0 <= k < |marks| :: SymMarksOk(marks[k])) && Begins(rest, RECORDS)
    ensures ParseRecords(ids, c, SymRecords(syms[i..], marks[i..], rest)) == ParseRecords(ids, c.(syms := syms, marks := marks), rest)
    decreases |syms| - i
  {
    hide SymTok, SymMarkToks, TakeSymMarks, Begins, MarkSym, ParseRecords, RECORDS;
    if i < |syms| {
      var more := SymRecords(syms[i + 1..], marks[i + 1..], rest);
      SymFront(syms[i + 1..], marks[i + 1..], rest);
      OneSym(ids, c, syms[i], marks[i], more);
      assert syms[i..][0] == syms[i] && syms[i..][1..] == syms[i + 1..] && marks[i..][0] == marks[i] && marks[i..][1..] == marks[i + 1..];
      NextSym(c, syms, marks, i);
      SymsBack(ids, MarkSym(c, syms[i], marks[i]), syms, marks, i + 1, rest);
    } else {
      assert syms[i..] == [] && syms[..i] == syms && marks[i..] == [] && marks[..i] == marks;
      assert c.(syms := syms, marks := marks) == c;
    }
  }

  lemma OneSym(ids: map<string, nat>, c: Contents, name: string, k: SymMarks, more: seq<Tok>)
    requires SymMarksOk(k) && Begins(more, RECORDS)
    ensures ParseRecords(ids, c, [Ident("sym"), SymTok(name)] + SymMarkToks(k, more)) == ParseRecords(ids, MarkSym(c, name, k), more)
  {
    hide SymTok, SymMarkToks, TakeSymMarks, Begins, MarkSym;
    var ts := [Ident("sym"), SymTok(name)] + SymMarkToks(k, more);
    SymMarksBack(k, more);
    SymTokName(name);
    PlainNothing(more);
    SymMarksPlain(k, more, more);
    PlainShorter(SymMarkToks(k, more), more);
    assert ts[2..] == SymMarkToks(k, more);
  }

  lemma NextSym(c: Contents, syms: seq<string>, marks: seq<SymMarks>, i: nat)
    requires Distinct(syms) && |marks| == |syms| && i < |syms| && c.syms == syms[..i] && c.marks == marks[..i]
    ensures var c' := MarkSym(c, syms[i], marks[i]);
            && c'.syms == syms[..i + 1] && c'.marks == marks[..i + 1]
            && c'.(syms := syms, marks := marks) == c.(syms := syms, marks := marks)
  {
    assert syms[..i + 1] == syms[..i] + [syms[i]] && marks[..i + 1] == marks[..i] + [marks[i]];
    assert forall j | 0 <= j < i :: syms[..i][j] == syms[j] && syms[j] != syms[i];
    assert syms[i] !in syms[..i];
    assert Padded(marks[..i] + [UNMARKED], i + 1) == marks[..i] + [UNMARKED];
    assert Merged(UNMARKED, marks[i]) == marks[i];
  }

  ghost predicate AliasesOk(syms: seq<string>, aliases: seq<Alias>) {
    forall i | 0 <= i < |aliases| :: AliasOk(aliases[i]) && aliases[i].name in syms
  }

  // A symbol that is there already changes nothing.
  lemma NothingNew(c: Contents, name: string)
    requires Distinct(c.syms) && |c.marks| == |c.syms| && name in c.syms
    ensures Probing.Inserted(c.syms, name) == c.syms && WithSyms(c, c.syms) == c
  {
  }

  lemma {:induction false} AliasesBack(ids: map<string, nat>, c: Contents, aliases: seq<Alias>, rest: seq<Tok>)
    requires Distinct(c.syms) && |c.marks| == |c.syms| && AliasesOk(c.syms, aliases) && Begins(rest, RECORDS)
    ensures ParseRecords(ids, c, AliasRecords(aliases, rest)) == ParseRecords(ids, c.(aliases := c.aliases + aliases), rest)
    decreases |aliases|
  {
    hide AliasToks, ParseRecords, Begins, Distinct, AliasOk;
    if aliases == [] {
      assert c.(aliases := c.aliases + []) == c;
    } else {
      var more, c' := AliasRecords(aliases[1..], rest), c.(aliases := c.aliases + [aliases[0]]);
      AliasFront(aliases[1..], rest);
      OneAlias(ids, c, aliases[0], more);
      AliasesBack(ids, c', aliases[1..], rest);
      assert c'.aliases + aliases[1..] == c.aliases + aliases;
    }
  }

  lemma OneAlias(ids: map<string, nat>, c: Contents, a: Alias, more: seq<Tok>)
    requires Distinct(c.syms) && |c.marks| == |c.syms| && AliasOk(a) && a.name in c.syms && Begins(more, RECORDS)
    ensures ParseRecords(ids, c, [Ident("alias")] + AliasToks(a, more)) == ParseRecords(ids, c.(aliases := c.aliases + [a]), more)
  {
    hide AliasToks, TakeAlias, Begins, Distinct;
    var ts := [Ident("alias")] + AliasToks(a, more);
    AliasBack(a, more);
    NothingNew(c, a.name);
    PlainNothing(more);
    AliasPlain(a, more, more);
    PlainShorter(AliasToks(a, more), more);
    assert ts[1..] == AliasToks(a, more);
  }

  ghost predicate GlobalsOk(syms: seq<string>, globals: seq<Global>) {
    forall i | 0 <= i < |globals| :: GlobalOk(syms, globals[i])
  }

  lemma {:induction false} GlobalsBack(ids: map<string, nat>, c: Contents, globals: seq<Global>, rest: seq<Tok>)
    requires Distinct(c.syms) && |c.marks| == |c.syms| && GlobalsOk(c.syms, globals) && Begins(rest, RECORDS)
    ensures ParseRecords(ids, c, GlobalRecords(c.syms, globals, rest)) == ParseRecords(ids, c.(globals := c.globals + globals), rest)
    decreases |globals|
  {
    hide GlobalToks, ParseRecords, Begins, Distinct, GlobalOk;
    if globals == [] {
      assert c.(globals := c.globals + []) == c;
    } else {
      var more, c' := GlobalRecords(c.syms, globals[1..], rest), c.(globals := c.globals + [globals[0]]);
      GlobalFront(c.syms, globals[1..], rest);
      OneGlobal(ids, c, globals[0], more);
      GlobalsBack(ids, c', globals[1..], rest);
      assert c'.globals + globals[1..] == c.globals + globals;
    }
  }

  lemma OneGlobal(ids: map<string, nat>, c: Contents, g: Global, more: seq<Tok>)
    requires Distinct(c.syms) && |c.marks| == |c.syms| && GlobalOk(c.syms, g) && Begins(more, RECORDS)
    ensures ParseRecords(ids, c, [Ident("global")] + GlobalToks(c.syms, g, more)) == ParseRecords(ids, c.(globals := c.globals + [g]), more)
  {
    hide GlobalToks, TakeGlobal, Begins, Distinct;
    var ts := [Ident("global")] + GlobalToks(c.syms, g, more);
    GlobalBack(c.syms, g, more);
    NothingNew(c, g.name);
    PlainNothing(more);
    GlobalPlain(c.syms, g, more, more);
    PlainShorter(GlobalToks(c.syms, g, more), more);
    assert ts[1..] == GlobalToks(c.syms, g, more);
  }

  // --- the module -------------------------------------------------------------------------------------

  // Fit to print. Symbols, functions and labels are unique, and every number fits
  // the field it is kept in.
  ghost predicate ModuleOk(m: Module) {
    && |m.marks| == |m.syms| && Distinct(m.syms) && Distinct(FuncNames(m.funcs))
    && (forall k | 0 <= k < |m.marks| :: SymMarksOk(m.marks[k]))
    && AliasesOk(m.syms, m.aliases) && GlobalsOk(m.syms, m.globals)
    && forall i | 0 <= i < |m.funcs| :: FuncTextOk(NamesOf(m), m.funcs[i])
  }

  ghost predicate FuncTextOk(m: ModuleNames, t: FuncText) {
    FuncOk(m, t.func) && FuncShaped(t.func) && NamesOk(t.func) && HeaderOk(m, t.func, t.header)
  }

  lemma Shapes(m: Module)
    requires ModuleOk(m)
    ensures ModuleShaped(m)
  {
    hide FuncShaped, FuncOk, NamesOk, HeaderOk;
    forall i | 0 <= i < |m.funcs|
      ensures FuncShaped(m.funcs[i].func)
    {
      assert FuncTextOk(NamesOf(m), m.funcs[i]);
    }
  }

  lemma TextFacts(m: ModuleNames, t: FuncText)
    requires FuncTextOk(m, t)
    ensures t.header.ret <= TYPE_VOID && IdsOk(t.func, t.func.paramVals) && FuncShaped(t.func)
  {
    hide Canonical, BlockPrintable, FuncShaped, FuncMarksOk;
  }

  lemma {:induction false} FuncsScanned(m: Module, i: nat)
    requires ModuleOk(m) && AllFuncsShaped(m.funcs) && i <= |m.funcs|
    ensures AllFuncsShaped(m.funcs[i..])
    ensures PrescanFuncs(FuncRecords(NamesOf(m), m.funcs[i..], [Eof]), 0, FuncNames(m.funcs)[..i]) == Labels(FuncNames(m.funcs))
    decreases |m.funcs| - i
  {
    hide FuncShaped, FuncToks, FuncTextOk, PrescanFuncs, NamesOf, AliasesOk, GlobalsOk;
    var names := FuncNames(m.funcs);
    if i < |m.funcs| {
      var t := m.funcs[i];
      FuncsScanned(m, i + 1);
      assert m.funcs[i..][0] == t && m.funcs[i..][1..] == m.funcs[i + 1..];
      TextFacts(NamesOf(m), t);
      assert names[i] == t.header.name && names[..i + 1] == names[..i] + [names[i]];
      assert t.header.name !in names[..i];
      FuncScanned(NamesOf(m), t.header, t.func, FuncRecords(NamesOf(m), m.funcs[i + 1..], [Eof]), names[..i]);
    } else {
      assert m.funcs[i..] == [] && names[..i] == names;
      EndScanned(names);
    }
  }

  lemma EndScanned(names: seq<string>)
    ensures PrescanFuncs([Eof], 0, names) == Labels(names)
  {
  }

  lemma FuncsNumbered(m: Module)
    requires ModuleOk(m)
    ensures FuncsKnown(NamesOf(m), Known(map[], Numbered(FuncNames(m.funcs))))
  {
    hide FuncTextOk, AliasesOk, GlobalsOk;
    var names, k := FuncNames(m.funcs), Numbered(FuncNames(m.funcs));
    forall i | 0 <= i < |names|
      ensures names[i] in k && k[names[i]] == i + 1
    {
      NumberedMeans(names, i);
    }
    forall s | 0 <= s < |m.syms| && m.syms[s] in k
      ensures m.syms[s] in names
    {
      NumberedFrom(names, m.syms[s]);
    }
  }

  lemma {:induction false} NumberedFrom(names: seq<string>, name: string)
    requires name in Numbered(names)
    ensures name in names
  {
    if names != [] && name != names[|names| - 1] {
      NumberedFrom(names[..|names| - 1], name);
    }
  }

  // What each function comes back as.
  function Returned(t: FuncText): ParsedFunc {
    ParsedFunc(t.header, t.func.paramVals, DropBlocks(t.func), TypesTo(t.func, |t.func.vals|))
  }

  function AllReturned(funcs: seq<FuncText>): (r: seq<ParsedFunc>)
    ensures |r| == |funcs|
  {
    seq(|funcs|, i requires 0 <= i < |funcs| => Returned(funcs[i]))
  }

  lemma {:induction false} FuncsBack(m: Module, c: Contents, i: nat)
    requires ModuleOk(m) && AllFuncsShaped(m.funcs) && i <= |m.funcs|
    requires c.syms == m.syms && |c.marks| == |c.syms| && c.funcs == AllReturned(m.funcs)[..i]
    ensures AllFuncsShaped(m.funcs[i..])
    ensures ParseRecords(Numbered(FuncNames(m.funcs)), c, FuncRecords(NamesOf(m), m.funcs[i..], [Eof])) ==
              ParsedModule(c.(funcs := AllReturned(m.funcs)))
    decreases |m.funcs| - i
  {
    hide FuncShaped, FuncToks, FuncTextOk, ParseFunc, Numbered, Returned, FuncNames, NamesOf, ParseRecords, AliasesOk, GlobalsOk;
    var all := AllReturned(m.funcs);
    if i < |m.funcs| {
      var t, names, c' := m.funcs[i], NamesOf(m), c.(funcs := c.funcs + [all[i]]);
      assert all[..i + 1] == all[..i] + [all[i]];
      FuncsBack(m, c', i + 1);
      assert m.funcs[i..][0] == t && m.funcs[i..][1..] == m.funcs[i + 1..];
      OneFunc(m, c, t, FuncRecords(names, m.funcs[i + 1..], [Eof]));
      assert c'.(funcs := all) == c.(funcs := all);
    } else {
      assert m.funcs[i..] == [] && all[..i] == all;
      EndRecords(Numbered(FuncNames(m.funcs)), c);
    }
  }

  lemma EndRecords(ids: map<string, nat>, c: Contents)
    ensures ParseRecords(ids, c, [Eof]) == ParsedModule(c)
  {
  }

  lemma OneFunc(m: Module, c: Contents, t: FuncText, rest: seq<Tok>)
    requires ModuleOk(m) && FuncShaped(t.func) && FuncTextOk(NamesOf(m), t) && c.syms == m.syms && |c.marks| == |c.syms|
    ensures ParseRecords(Numbered(FuncNames(m.funcs)), c, FuncToks(NamesOf(m), t.header, t.func, rest)) ==
              ParseRecords(Numbered(FuncNames(m.funcs)), c.(funcs := c.funcs + [Returned(t)]), rest)
  {
    hide FuncShaped, FuncToks, FuncTextOk, ParseFunc, Numbered, Returned, FuncNames, AliasesOk, GlobalsOk;
    var ts := FuncToks(NamesOf(m), t.header, t.func, rest);
    FuncsNumbered(m);
    SymsOf(m);
    ReturnedIs(NamesOf(m), t, Numbered(FuncNames(m.funcs)), rest);
    assert WithSyms(c, c.syms) == c;
  }

  lemma ReturnedIs(m: ModuleNames, t: FuncText, funcs: map<string, nat>, rest: seq<Tok>)
    requires FuncShaped(t.func) && FuncTextOk(m, t) && FuncsKnown(m, Known(map[], funcs))
    ensures var ts := FuncToks(m, t.header, t.func, rest);
            |ts| > |rest| && ts[0] == Ident("func") && ParseFunc(funcs, m.syms, ts[1..]) == FuncResult(Returned(t), m.syms, rest)
  {
    hide FuncShaped, FuncToks, FuncOk, NamesOk, ParseFunc, HeaderOk;
    TextFacts(m, t);
    FuncBack(m, t.header, t.func, funcs, rest);
    FuncScanned(m, t.header, t.func, rest, []);
  }

  lemma SymsOf(m: Module)
    ensures NamesOf(m).syms == m.syms
  {
  }

  function ContentsOf(m: Module, funcs: seq<ParsedFunc>): Contents {
    Contents(m.idents, m.syms, m.marks, m.aliases, m.globals, funcs)
  }

  // Everything before the functions.
  lemma RecordsBack(m: Module, ids: map<string, nat>, funcs: seq<Tok>)
    requires ModuleOk(m) && Begins(funcs, RECORDS)
    ensures var globals := GlobalRecords(m.syms, m.globals, funcs);
            ParseRecords(ids, Contents([], [], [], [], [], []), IdentRecords(m.idents, SymRecords(m.syms, m.marks, AliasRecords(m.aliases, globals))))
            == ParseRecords(ids, ContentsOf(m, []), funcs)
  {
    hide ParseRecords, FuncTextOk, NamesOf, IdentRecords, SymRecords, AliasRecords, GlobalRecords, Begins, RECORDS;
    var globals := GlobalRecords(m.syms, m.globals, funcs);
    var aliases := AliasRecords(m.aliases, globals);
    var syms := SymRecords(m.syms, m.marks, aliases);
    GlobalFront(m.syms, m.globals, funcs);
    AliasFront(m.aliases, globals);
    var c1 := Contents(m.idents, [], [], [], [], []);
    IdentsBack(ids, Contents([], [], [], [], [], []), m.idents, syms);
    assert [] + m.idents == m.idents;
    SymsBack(ids, c1, m.syms, m.marks, 0, aliases);
    assert m.syms[0..] == m.syms && m.marks[0..] == m.marks;
    var c2 := c1.(syms := m.syms, marks := m.marks);
    AliasesBack(ids, c2, m.aliases, globals);
    assert [] + m.aliases == m.aliases && [] + m.globals == m.globals;
    GlobalsBack(ids, c2.(aliases := m.aliases), m.globals, funcs);
  }

  lemma RecordsScanned(m: Module, funcs: seq<Tok>)
    requires |m.marks| == |m.syms|
    ensures PrescanFuncs(IdentRecords(m.idents, SymRecords(m.syms, m.marks, AliasRecords(m.aliases, GlobalRecords(m.syms, m.globals, funcs)))), 0, [])
            == PrescanFuncs(funcs, 0, [])
  {
    hide PrescanFuncs, PlainUpTo, IdentRecords, SymRecords, AliasRecords, GlobalRecords;
    var globals := GlobalRecords(m.syms, m.globals, funcs);
    var aliases := AliasRecords(m.aliases, globals);
    var syms := SymRecords(m.syms, m.marks, aliases);
    GlobalsPlain(m.syms, m.globals, funcs);
    PlainScanned(globals, funcs, []);
    AliasesPlain(m.aliases, globals);
    PlainScanned(aliases, globals, []);
    SymsPlain(m.syms, m.marks, aliases);
    PlainScanned(syms, aliases, []);
    IdentsPlain(m.idents, syms);
    PlainScanned(IdentRecords(m.idents, syms), syms, []);
  }

  // Parsing a printed module gives all of it back, each function as it was but
  // for the flags of forward call arguments.
  lemma ModuleBack(m: Module)
    requires ModuleOk(m)
    ensures ModuleShaped(m) && ParseModule(ModuleToks(m)) == ParsedModule(ContentsOf(m, AllReturned(m.funcs)))
  {
    hide FuncShaped, FuncRecords, PrescanFuncs, ParseRecords, NamesOf, SymRecords, IdentRecords, AliasRecords, GlobalRecords, FuncTextOk,
         Numbered, AliasesOk, GlobalsOk, Begins, Returned;
    Shapes(m);
    var names, funcs := FuncNames(m.funcs), FuncRecords(NamesOf(m), m.funcs, [Eof]);
    assert m.funcs[0..] == m.funcs && names[..0] == [];
    FuncFront(NamesOf(m), m.funcs);
    RecordsScanned(m, funcs);
    FuncsScanned(m, 0);
    RecordsBack(m, Numbered(names), funcs);
    assert AllReturned(m.funcs)[..0] == [];
    FuncsBack(m, ContentsOf(m, []), 0);
  }

  // The whole-module law holds exactly when no function loses a flag.
  lemma ModuleRoundTripExactly(m: Module)
    requires ModuleOk(m)
    ensures ModuleShaped(m)
    ensures ParseModule(ModuleToks(m)) == ParsedModule(ContentsOf(m, AllPrinted(m.funcs))) <==>
              forall i: nat, b: nat, j: nat, q: nat | i < |m.funcs| :: !LosesFlag(m.funcs[i].func, b, j, q)
  {
    hide ParseModule, ModuleToks, LosesFlag, Returned, FuncTextOk, Printed, ModuleShaped;
    ModuleBack(m);
    forall i: nat | i < |m.funcs|
      ensures AllReturned(m.funcs)[i] == AllPrinted(m.funcs)[i] <==> forall b: nat, j: nat, q: nat :: !LosesFlag(m.funcs[i].func, b, j, q)
    {
      FuncReturnsSame(m, i);
    }
    if forall i: nat, b: nat, j: nat, q: nat | i < |m.funcs| :: !LosesFlag(m.funcs[i].func, b, j, q) {
      assert AllReturned(m.funcs) == AllPrinted(m.funcs);
    }
  }

  lemma FuncReturnsSame(m: Module, i: nat)
    requires ModuleOk(m) && i < |m.funcs|
    ensures Returned(m.funcs[i]) == AllPrinted(m.funcs)[i] <==> forall b: nat, j: nat, q: nat :: !LosesFlag(m.funcs[i].func, b, j, q)
  {
    hide LosesFlag, FuncOk, FuncShaped, NamesOk, HeaderOk, ParseFunc, FuncToks, NamesOf, AliasesOk, GlobalsOk;
    var t := m.funcs[i];
    assert FuncTextOk(NamesOf(m), t);
    var ids := Numbered(FuncNames(m.funcs));
    FuncsNumbered(m);
    SymsOf(m);
    FuncBack(NamesOf(m), t.header, t.func, ids, []);
    FuncRoundTripExactly(NamesOf(m), t.header, t.func, ids, []);
  }

  function AllPrinted(funcs: seq<FuncText>): (r: seq<ParsedFunc>)
    ensures |r| == |funcs|
  {
    seq(|funcs|, i requires 0 <= i < |funcs| => Printed(funcs[i].header, funcs[i].func))
  }

  // --- text -------------------------------------------------------------------------------------------

  function ParseText(text: string): ParsedModule {
    match IrLex.LexAll(text)
    case BadText => BadModule
    case Tokens(ts) => ParseModule(ts)
  }

  // The printer's tokens for a module, in the printer's spelling, with any
  // spacing that keeps words apart.
  ghost predicate TextOf(m: Module, ps: seq<IrLex.Piece>, tail: string)
    requires ModuleShaped(m)
  {
    IrLex.WellSpaced(ps, tail) && IrLex.TokensOf(ps) + [Eof] == ModuleToks(m)
  }

  // The law on text: parsing it gives the module back exactly when no function
  // passes a flagged argument before its value is defined.
  lemma TextRoundTripExactly(m: Module, ps: seq<IrLex.Piece>, tail: string)
    requires ModuleOk(m) && ModuleShaped(m) && TextOf(m, ps, tail)
    ensures ParseText(IrLex.Render(ps, tail)) == ParsedModule(ContentsOf(m, AllPrinted(m.funcs))) <==>
              forall i: nat, b: nat, j: nat, q: nat | i < |m.funcs| :: !LosesFlag(m.funcs[i].func, b, j, q)
  {
    hide ParseModule, ModuleToks, LosesFlag, ModuleOk, ModuleShaped;
    IrLex.TextLexesBack(ps, tail);
    ModuleRoundTripExactly(m);
  }
}
