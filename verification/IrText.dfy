/** The printed text of a module, and its lines: they hold the printer's tokens in
    order, each spelled so that it can be lexed. */
module IrText {
  import opened Shared
  import opened Ir
  import opened IrNames
  import opened IrTokens
  import opened IrMarks
  import opened IrPrint
  import opened IrRecords
  import opened IrSpell
  import opened IrTripMarks
  import IrLex
  import Renumbering
  import Verifier

  // --- the lines ---------------------------------------------------------------------------

  function IdentLines(idents: seq<seq<nat>>): (r: seq<Line>)
    ensures |r| == |idents|
  {
    seq(|idents|, i requires 0 <= i < |idents| => Line("", [Ident("ident"), Str(idents[i])]))
  }

  function SymLines(syms: seq<string>, marks: seq<SymMarks>): (r: seq<Line>)
    requires |marks| == |syms|
    ensures |r| == |syms|
  {
    seq(|syms|, i requires 0 <= i < |syms| => Line("", [Ident("sym"), SymTok(syms[i])] + SymMarkToks(marks[i], [])))
  }

  function AliasLines(aliases: seq<Alias>): (r: seq<Line>)
    ensures |r| == |aliases|
  {
    seq(|aliases|, i requires 0 <= i < |aliases| => Line("", [Ident("alias")] + AliasToks(aliases[i], [])))
  }

  function GlobalLines(syms: seq<string>, globals: seq<Global>): (r: seq<Line>)
    ensures |r| == |globals|
  {
    seq(|globals|, i requires 0 <= i < |globals| => Line("", [Ident("global")] + GlobalToks(syms, globals[i], [])))
  }

  function InstLines(m: ModuleNames, f: Func, insts: seq<Inst>): (r: seq<Line>)
    requires AllShaped(insts)
    ensures |r| == |insts|
  {
    seq(|insts|, i requires 0 <= i < |insts| => Line("    ", InstToks(m, f, insts[i], [])))
  }

  function BlockHeader(f: Func, block: Block): seq<Tok> {
    [Ident(block.name), LP] + ParamToks(f, block.params, [RP, Colon])
  }

  function BlockLines(m: ModuleNames, f: Func, b: nat): seq<Line>
    requires FuncShaped(f) && b <= |f.blocks|
    decreases |f.blocks| - b
  {
    if b == |f.blocks| then []
    else [Line("", BlockHeader(f, f.blocks[b]))] + InstLines(m, f, f.blocks[b].insts) + BlockLines(m, f, b + 1)
  }

  // An empty line comes first.
  function FuncLines(m: ModuleNames, h: Header, f: Func): seq<Line>
    requires FuncShaped(f)
  {
    [Line("\n", HeaderToks(h, f, []))] + BlockLines(m, f, 0) + [Line("", [RB])]
  }

  function FuncsLines(m: ModuleNames, funcs: seq<FuncText>): seq<Line>
    requires AllFuncsShaped(funcs)
  {
    if funcs == [] then [] else FuncLines(m, funcs[0].header, funcs[0].func) + FuncsLines(m, funcs[1..])
  }

  function ModuleLines(m: Module): seq<Line>
    requires ModuleShaped(m)
  {
    IdentLines(m.idents) + SymLines(m.syms, m.marks) + AliasLines(m.aliases) + GlobalLines(m.syms, m.globals)
    + FuncsLines(NamesOf(m), m.funcs)
  }

  function PrintText(m: Module): string
    requires ModuleShaped(m)
  {
    LinesText(ModuleLines(m))
  }

  // --- tokens that add to what follows -----------------------------------------------------

  // xr is x with rest behind it, and x can be lexed.
  predicate Adds(x: seq<Tok>, xr: seq<Tok>, rest: seq<Tok>) {
    xr == x + rest && AllLex(x)
  }

  lemma AddsNothing(rest: seq<Tok>)
    ensures Adds([], rest, rest)
  {
    assert [] + rest == rest;
  }

  lemma AddsFront(front: seq<Tok>, x: seq<Tok>, xr: seq<Tok>, rest: seq<Tok>)
    requires Adds(x, xr, rest) && AllLex(front)
    ensures Adds(front + x, front + xr, rest)
  {
    hide Lexes;
    assert front + (x + rest) == front + x + rest;
  }

  lemma WordAdds(on: bool, word: string, x: seq<Tok>, xr: seq<Tok>, rest: seq<Tok>)
    requires Adds(x, xr, rest) && Lexes(Ident(word))
    ensures Adds(Word(on, word, x), Word(on, word, xr), rest)
  {
    hide Lexes;
    AddsFront(if on then [Ident(word)] else [], x, xr, rest);
    assert [] + x == x && [] + xr == xr;
  }

  lemma ParensAdds(word: string, inner: seq<Tok>, x: seq<Tok>, xr: seq<Tok>, rest: seq<Tok>)
    requires Adds(x, xr, rest) && Lexes(Ident(word)) && AllLex(inner)
    ensures Adds(InParens(word, inner, x), InParens(word, inner, xr), rest)
  {
    ParensLex(word, inner);
    hide AllLex;
    AddsFront([Ident(word), LP] + inner + [RP], x, xr, rest);
  }

  lemma ParensLex(word: string, inner: seq<Tok>)
    requires Lexes(Ident(word)) && AllLex(inner)
    ensures AllLex([Ident(word), LP] + inner + [RP])
  {
  }

  // --- marks -------------------------------------------------------------------------------

  lemma VisibilityAdds(v: nat, x: seq<Tok>, xr: seq<Tok>, rest: seq<Tok>)
    requires Adds(x, xr, rest) && v < |VISIBILITIES|
    ensures Adds(VisibilityToks(v, x), VisibilityToks(v, xr), rest)
  {
    if v != 0 {
      VisibilityLexes(v);
      hide Adds, InParens, At, Lexes, AllLex;
      WordLexes("visibility");
      ParensAdds("visibility", [Ident(At(VISIBILITIES, v))], x, xr, rest);
    }
  }

  lemma VisibilityLexes(v: nat)
    requires 0 < v < |VISIBILITIES|
    ensures AllLex([Ident(At(VISIBILITIES, v))])
  {
  }

  lemma WordLexes(word: string)
    requires IrLex.AllIdent(word) && IrLex.IdentStart(word[0])
    ensures Lexes(Ident(word))
  {
  }

  predicate SectionLexes(section: Option<seq<nat>>) {
    section.Some? ==> IrLex.AllBytes(section.value)
  }

  lemma SectionAdds(section: Option<seq<nat>>, x: seq<Tok>, xr: seq<Tok>, rest: seq<Tok>)
    requires Adds(x, xr, rest) && SectionLexes(section)
    ensures Adds(SectionToks(section, x), SectionToks(section, xr), rest)
  {
    hide Adds, InParens;
    if section.Some? {
      ParensAdds("section", [Str(section.value)], x, xr, rest);
    }
  }

  lemma NumberAdds(word: string, n: nat, x: seq<Tok>, xr: seq<Tok>, rest: seq<Tok>)
    requires Adds(x, xr, rest) && Lexes(Ident(word)) && n < U64
    ensures Adds(InParens(word, [IntTok(n)], x), InParens(word, [IntTok(n)], xr), rest)
  {
    hide Adds, InParens;
    ParensAdds(word, [IntTok(n)], x, xr, rest);
  }

  lemma StartAdds(word: string, start: Option<nat>, x: seq<Tok>, xr: seq<Tok>, rest: seq<Tok>)
    requires Adds(x, xr, rest) && Lexes(Ident(word)) && StartOk(start)
    ensures Adds(StartToks(word, start, x), StartToks(word, start, xr), rest)
  {
    hide Adds, InParens, Lexes;
    if start.Some? {
      NumberAdds(word, start.value, x, xr, rest);
      WordAdds(true, word, x, xr, rest);
    }
  }

  lemma AbiLexes(abi: nat, leaves: nat)
    requires 0 < abi < 9 && leaves < 256
    ensures AllLex([Ident(At(ABI_RETURNS, abi))]) && AllLex([Ident(At(ABI_RETURNS, abi)), Comma, IntTok(leaves)])
  {
  }

  lemma AbiAdds(abi: nat, leaves: nat, x: seq<Tok>, xr: seq<Tok>, rest: seq<Tok>)
    requires Adds(x, xr, rest) && AbiOk(abi, leaves)
    ensures Adds(AbiToks(abi, leaves, x), AbiToks(abi, leaves, xr), rest)
  {
    WordLexes("abi");
    hide Adds, InParens, Lexes, AllLex, At;
    if abi != 0 {
      AbiLexes(abi, leaves);
      var name := Ident(At(ABI_RETURNS, abi));
      ParensAdds("abi", if abi >= ABI_HFA then [name, Comma, IntTok(leaves)] else [name], x, xr, rest);
    }
  }

  lemma FuncWordsLex(i: nat)
    requires i < |FUNC_WORDS|
    ensures Lexes(Ident(FUNC_WORDS[i]))
  {
  }

  predicate FuncMarksLex(k: FuncMarks) {
    FuncMarksOk(k) && SectionLexes(k.section)
  }

  lemma EndMarksAdd(k: FuncMarks, x: seq<Tok>, xr: seq<Tok>, rest: seq<Tok>)
    requires Adds(x, xr, rest) && FuncMarksOk(k)
    ensures Adds(EndMarkToks(k, x), EndMarkToks(k, xr), rest)
  {
    hide Adds, Word, StartToks, AbiToks, Lexes;
    forall i | 10 <= i < 15 ensures Lexes(Ident(FUNC_WORDS[i])) { FuncWordsLex(i); }
    assert FUNC_WORDS[10] == "constructor" && FUNC_WORDS[11] == "destructor" && FUNC_WORDS[13] == "setjmp" && FUNC_WORDS[14] == "contract";
    var y, yr := Word(k.contract, "contract", x), Word(k.contract, "contract", xr);
    WordAdds(k.contract, "contract", x, xr, rest);
    var z, zr := Word(k.setjmp, "setjmp", y), Word(k.setjmp, "setjmp", yr);
    WordAdds(k.setjmp, "setjmp", y, yr, rest);
    AbiAdds(k.abi, k.leaves, z, zr, rest);
    z, zr := AbiToks(k.abi, k.leaves, z), AbiToks(k.abi, k.leaves, zr);
    StartAdds("destructor", k.dtor, z, zr, rest);
    StartAdds("constructor", k.ctor, StartToks("destructor", k.dtor, z), StartToks("destructor", k.dtor, zr), rest);
  }

  lemma MiddleMarksAdd(k: FuncMarks, x: seq<Tok>, xr: seq<Tok>, rest: seq<Tok>)
    requires Adds(x, xr, rest) && FuncMarksLex(k)
    ensures Adds(MiddleMarkToks(k, x), MiddleMarkToks(k, xr), rest)
  {
    hide Adds, Word, SectionToks, EndMarkToks, Lexes, SectionLexes;
    forall i | 5 <= i < 9 ensures Lexes(Ident(FUNC_WORDS[i])) { FuncWordsLex(i); }
    assert FUNC_WORDS[5] == "used" && FUNC_WORDS[6] == "always_inline" && FUNC_WORDS[7] == "inline_only" && FUNC_WORDS[8] == "returns_twice";
    EndMarksAdd(k, x, xr, rest);
    var y, yr := SectionToks(k.section, EndMarkToks(k, x)), SectionToks(k.section, EndMarkToks(k, xr));
    SectionAdds(k.section, EndMarkToks(k, x), EndMarkToks(k, xr), rest);
    WordAdds(k.returnsTwice, "returns_twice", y, yr, rest);
    y, yr := Word(k.returnsTwice, "returns_twice", y), Word(k.returnsTwice, "returns_twice", yr);
    WordAdds(k.inlineOnly, "inline_only", y, yr, rest);
    y, yr := Word(k.inlineOnly, "inline_only", y), Word(k.inlineOnly, "inline_only", yr);
    WordAdds(k.alwaysInline, "always_inline", y, yr, rest);
    WordAdds(k.used, "used", Word(k.alwaysInline, "always_inline", y), Word(k.alwaysInline, "always_inline", yr), rest);
  }

  lemma FuncMarksAdd(k: FuncMarks, x: seq<Tok>, xr: seq<Tok>, rest: seq<Tok>)
    requires Adds(x, xr, rest) && FuncMarksLex(k)
    ensures Adds(FuncMarkToks(k, x), FuncMarkToks(k, xr), rest)
  {
    hide Adds, Word, VisibilityToks, InParens, MiddleMarkToks, Lexes, SectionLexes;
    forall i | 0 <= i < 5 ensures Lexes(Ident(FUNC_WORDS[i])) { FuncWordsLex(i); }
    assert FUNC_WORDS[0] == "unproto" && FUNC_WORDS[1] == "internal" && FUNC_WORDS[2] == "weak" && FUNC_WORDS[4] == "align";
    var y, yr := MiddleMarkToks(k, x), MiddleMarkToks(k, xr);
    MiddleMarksAdd(k, x, xr, rest);
    NumberAdds("align", k.align, y, yr, rest);
    y, yr := FuncAlignToks(k.align, y), FuncAlignToks(k.align, yr);
    VisibilityAdds(k.visibility, y, yr, rest);
    y, yr := VisibilityToks(k.visibility, y), VisibilityToks(k.visibility, yr);
    WordAdds(k.weak, "weak", y, yr, rest);
    y, yr := Word(k.weak, "weak", y), Word(k.weak, "weak", yr);
    WordAdds(k.internal, "internal", y, yr, rest);
    WordAdds(k.unproto, "unproto", Word(k.internal, "internal", y), Word(k.internal, "internal", yr), rest);
  }

  lemma ParamWordsLex(i: nat)
    requires i < |PARAM_WORDS|
    ensures Lexes(Ident(PARAM_WORDS[i]))
  {
  }

  lemma ParamMarkAdds(p: ParamMark, x: seq<Tok>, xr: seq<Tok>, rest: seq<Tok>)
    requires Adds(x, xr, rest) && ParamMarkOk(p)
    ensures Adds(ParamMarkToks(p, x), ParamMarkToks(p, xr), rest)
  {
    hide Adds, Word, InParens, Lexes;
    forall i | 0 <= i < 6 ensures Lexes(Ident(PARAM_WORDS[i])) { ParamWordsLex(i); }
    assert PARAM_WORDS[0] == "byval" && PARAM_WORDS[1] == "onstack" && PARAM_WORDS[2] == "stackalign16" && PARAM_WORDS[3] == "stackalign"
      && PARAM_WORDS[4] == "even" && PARAM_WORDS[5] == "restrict";
    WordAdds(p.restricted, "restrict", x, xr, rest);
    var y, yr := Word(p.restricted, "restrict", x), Word(p.restricted, "restrict", xr);
    WordAdds(p.even, "even", y, yr, rest);
    y, yr := Word(p.even, "even", y), Word(p.even, "even", yr);
    AddsFront([Ident("stackalign16")], y, yr, rest);
    NumberAdds("stackalign", p.align, y, yr, rest);
    y, yr := StackAlignToks(p.align, y), StackAlignToks(p.align, yr);
    WordAdds(p.onstack, "onstack", y, yr, rest);
    if p.byval.Some? {
      NumberAdds("byval", p.byval.value, Word(p.onstack, "onstack", y), Word(p.onstack, "onstack", yr), rest);
    }
  }

  // --- parameters and headers ----------------------------------------------------------------

  lemma ValTokLexes(f: Func, id: nat)
    ensures Lexes(ValTok(f, id))
  {
    hide Decimal;
    var n := Renumbering.NewId(Renumbering.Defs(f), id);
    assert IrLex.AllIdent("bad" + Decimal(id));
    assert n > 0 ==> IrLex.AllIdent(Decimal(n - 1));
  }

  lemma TypeLexes(ty: nat)
    ensures Lexes(Ident(TypeName(ty)))
  {
  }

  lemma TypedValueLexes(f: Func, id: nat)
    ensures AllLex([Ident(TypeName(Renumbering.TypeOf(f, id))), ValTok(f, id)])
  {
    hide Lexes;
    TypeLexes(Renumbering.TypeOf(f, id));
    ValTokLexes(f, id);
  }

  lemma {:induction false} ParamsAdd(f: Func, ids: seq<nat>, x: seq<Tok>, xr: seq<Tok>, rest: seq<Tok>)
    requires Adds(x, xr, rest)
    ensures Adds(ParamToks(f, ids, x), ParamToks(f, ids, xr), rest)
    decreases |ids|
  {
    hide Adds, TypeName, ValTok;
    if ids != [] {
      var here := [Ident(TypeName(Renumbering.TypeOf(f, ids[0]))), ValTok(f, ids[0])];
      TypedValueLexes(f, ids[0]);
      AddsFront(here, x, xr, rest);
      if |ids| > 1 {
        ParamsAdd(f, ids[1..], x, xr, rest);
        var y, yr := ParamToks(f, ids[1..], x), ParamToks(f, ids[1..], xr);
        AddsFront([Comma], y, yr, rest);
        AddsFront(here, [Comma] + y, [Comma] + yr, rest);
      }
    }
  }

  lemma {:induction false} FuncParamsAdd(f: Func, ids: seq<nat>, marks: seq<ParamMark>, x: seq<Tok>, xr: seq<Tok>, rest: seq<Tok>)
    requires Adds(x, xr, rest) && forall i | 0 <= i < |marks| :: ParamMarkOk(marks[i])
    ensures Adds(FuncParamToks(f, ids, marks, x), FuncParamToks(f, ids, marks, xr), rest)
    decreases |ids|
  {
    hide Adds, TypeName, ValTok, ParamMarkToks;
    if ids != [] {
      var y, yr := x, xr;
      if |ids| > 1 {
        FuncParamsAdd(f, ids[1..], LaterMarks(marks), x, xr, rest);
        y, yr := FuncParamToks(f, ids[1..], LaterMarks(marks), x), FuncParamToks(f, ids[1..], LaterMarks(marks), xr);
        AddsFront([Comma], y, yr, rest);
        y, yr := [Comma] + y, [Comma] + yr;
      }
      ValTokLexes(f, ids[0]);
      AddsFront([ValTok(f, ids[0])], y, yr, rest);
      y, yr := [ValTok(f, ids[0])] + y, [ValTok(f, ids[0])] + yr;
      ParamMarkAdds(FirstMark(marks), y, yr, rest);
      TypeLexes(Renumbering.TypeOf(f, ids[0]));
      AddsFront([Ident(TypeName(Renumbering.TypeOf(f, ids[0])))], ParamMarkToks(FirstMark(marks), y), ParamMarkToks(FirstMark(marks), yr), rest);
    }
  }

  // A symbol's name can be written after its sigil.
  predicate NameLexes(name: string) {
    Lexes(SymTok(name))
  }

  predicate HeaderLexes(h: Header) {
    NameLexes(h.name) && FuncMarksLex(h.marks) && forall i | 0 <= i < |h.params| :: ParamMarkOk(h.params[i])
  }

  lemma HeaderAdds(h: Header, f: Func, rest: seq<Tok>)
    requires HeaderLexes(h)
    ensures Adds(HeaderToks(h, f, []), HeaderToks(h, f, rest), rest)
  {
    AddsNothing(rest);
    HeaderFrontLexes(h);
    EndLexes(h, f);
    hide Adds, FuncMarkToks, FuncParamToks, ParamsEnd, TypeName, SymTok, FuncMarksLex, AllLex;
    AddsFront([LB], [], rest, rest);
    FuncMarksAdd(h.marks, [LB] + [], [LB] + rest, rest);
    var y, yr := FuncMarkToks(h.marks, [LB] + []), FuncMarkToks(h.marks, [LB] + rest);
    AddsFront(ParamsEnd(h, f), y, yr, rest);
    y, yr := ParamsEnd(h, f) + y, ParamsEnd(h, f) + yr;
    FuncParamsAdd(f, f.paramVals, h.params, y, yr, rest);
    AddsFront([Ident("func"), Ident(TypeName(h.ret)), SymTok(h.name), LP], FuncParamToks(f, f.paramVals, h.params, y),
              FuncParamToks(f, f.paramVals, h.params, yr), rest);
  }

  lemma HeaderFrontLexes(h: Header)
    requires NameLexes(h.name)
    ensures AllLex([Ident("func"), Ident(TypeName(h.ret)), SymTok(h.name), LP])
  {
    WordLexes("func");
    hide Lexes, TypeName, SymTok;
    TypeLexes(h.ret);
    assert Lexes(LP) by { PunctuationLexes(); }
  }

  lemma PunctuationLexes()
    ensures Lexes(LP) && Lexes(RP) && Lexes(LB) && Lexes(RB) && Lexes(Comma) && Lexes(Colon) && Lexes(Eq) && Lexes(Ellipsis)
  {
  }

  lemma EndLexes(h: Header, f: Func)
    ensures AllLex(ParamsEnd(h, f))
  {
  }

  // --- records -------------------------------------------------------------------------------

  lemma SymMarksAdd(k: SymMarks, x: seq<Tok>, xr: seq<Tok>, rest: seq<Tok>)
    requires Adds(x, xr, rest) && SymMarksOk(k)
    ensures Adds(SymMarkToks(k, x), SymMarkToks(k, xr), rest)
  {
    WordLexes("weak");
    WordLexes("tls");
    WordLexes("initial_exec");
    WordLexes("returns_twice");
    hide Adds, Word, VisibilityToks, InParens, Lexes;
    var y, yr := Word(k.returnsTwice, "returns_twice", x), Word(k.returnsTwice, "returns_twice", xr);
    WordAdds(k.returnsTwice, "returns_twice", x, xr, rest);
    if k.initialExec {
      ParensAdds("tls", [Ident("initial_exec")], y, yr, rest);
      y, yr := InParens("tls", [Ident("initial_exec")], y), InParens("tls", [Ident("initial_exec")], yr);
    }
    VisibilityAdds(k.visibility, y, yr, rest);
    WordAdds(k.weak, "weak", VisibilityToks(k.visibility, y), VisibilityToks(k.visibility, yr), rest);
  }

  predicate AliasLexes(a: Alias) {
    AliasOk(a) && NameLexes(a.name) && NameLexes(a.target)
  }

  lemma LinkageLexes(linkage: nat)
    requires linkage < |LINKAGES|
    ensures Lexes(Ident(At(LINKAGES, linkage)))
  {
  }

  lemma AliasAdds(a: Alias, rest: seq<Tok>)
    requires AliasLexes(a)
    ensures Adds([Ident("alias")] + AliasToks(a, []), [Ident("alias")] + AliasToks(a, rest), rest)
  {
    AddsNothing(rest);
    WordLexes("alias");
    WordLexes("weak");
    PunctuationLexes();
    LinkageLexes(a.linkage);
    hide Adds, Word, VisibilityToks, SymTok, At, Lexes;
    VisibilityAdds(a.visibility, [], rest, rest);
    var y, yr := VisibilityToks(a.visibility, []), VisibilityToks(a.visibility, rest);
    WordAdds(a.weak, "weak", y, yr, rest);
    var front := [SymTok(a.name), Eq, SymTok(a.target), Ident(At(LINKAGES, a.linkage))];
    AddsFront(front, Word(a.weak, "weak", y), Word(a.weak, "weak", yr), rest);
    AddsFront([Ident("alias")], AliasToks(a, []), AliasToks(a, rest), rest);
  }

  lemma InitAdds(init: Option<seq<nat>>, x: seq<Tok>, xr: seq<Tok>, rest: seq<Tok>)
    requires Adds(x, xr, rest) && (init.Some? ==> IrLex.AllBytes(init.value))
    ensures Adds(InitToks(init, x), InitToks(init, xr), rest)
  {
    if init.Some? {
      ImageLexes(init.value);
      WordLexes("init");
      hide Adds, Lexes, HexBytes;
      AddsFront([Ident("init"), Ident("x" + HexBytes(init.value))], x, xr, rest);
    }
  }

  lemma ImageLexes(bytes: seq<nat>)
    requires IrLex.AllBytes(bytes)
    ensures Lexes(Ident("x" + HexBytes(bytes)))
  {
    HexBytesIdent(bytes);
    hide HexBytes;
  }

  lemma {:induction false} HexBytesIdent(bytes: seq<nat>)
    requires IrLex.AllBytes(bytes)
    ensures forall i | 0 <= i < |HexBytes(bytes)| :: IrLex.IdentChar(HexBytes(bytes)[i])
  {
    hide IrLex.HexDigits;
    if bytes != [] {
      HexBytesIdent(bytes[1..]);
      assert IrLex.Power16(2) == 256;
      IrLex.HexDigitsBack(bytes[0], 2, false);
    }
  }

  predicate RelocsLex(syms: seq<string>, relocs: seq<Reloc>) {
    forall i | 0 <= i < |relocs| ::
      relocs[i].symbol < |syms| && NameLexes(syms[relocs[i].symbol]) && relocs[i].offset < U64 && relocs[i].addend < U64
  }

  lemma {:induction false} RelocsAdd(syms: seq<string>, relocs: seq<Reloc>, rest: seq<Tok>)
    requires RelocsLex(syms, relocs)
    ensures Adds(RelocToks(syms, relocs, []), RelocToks(syms, relocs, rest), rest)
    decreases |relocs|
  {
    if relocs == [] {
      AddsNothing(rest);
    } else {
      var r := relocs[0];
      RelocsAdd(syms, relocs[1..], rest);
      RelocLexes(syms, r);
      hide Adds, NameLexes, SymTok, AllLex;
      var front := [Ident("reloc"), IntTok(r.offset), SymTok(At(syms, r.symbol)), IntTok(r.addend)];
      AddsFront(front, RelocToks(syms, relocs[1..], []), RelocToks(syms, relocs[1..], rest), rest);
    }
  }

  lemma RelocLexes(syms: seq<string>, r: Reloc)
    requires r.symbol < |syms| && NameLexes(syms[r.symbol]) && r.offset < U64 && r.addend < U64
    ensures AllLex([Ident("reloc"), IntTok(r.offset), SymTok(At(syms, r.symbol)), IntTok(r.addend)])
  {
  }

  predicate GlobalLexes(syms: seq<string>, g: Global) {
    GlobalOk(syms, g) && NameLexes(g.name) && SectionLexes(g.section) && RelocsLex(syms, g.relocs)
  }

  lemma GlobalWordsLex(i: nat)
    requires i < |GLOBAL_WORDS|
    ensures Lexes(Ident(GLOBAL_WORDS[i]))
  {
  }

  lemma GlobalMarksAdd(g: Global, x: seq<Tok>, xr: seq<Tok>, rest: seq<Tok>)
    requires Adds(x, xr, rest) && SectionLexes(g.section) && g.visibility < |VISIBILITIES|
    ensures Adds(GlobalMarkToks(g, x), GlobalMarkToks(g, xr), rest)
  {
    hide Adds, Word, VisibilityToks, SectionToks, Lexes, SectionLexes;
    forall i | 0 <= i < 5 ensures Lexes(Ident(GLOBAL_WORDS[i])) { GlobalWordsLex(i); }
    assert GLOBAL_WORDS[0] == "tentative" && GLOBAL_WORDS[1] == "tls" && GLOBAL_WORDS[2] == "weak" && GLOBAL_WORDS[3] == "used"
      && GLOBAL_WORDS[4] == "const";
    VisibilityAdds(g.visibility, x, xr, rest);
    var y, yr := VisibilityToks(g.visibility, x), VisibilityToks(g.visibility, xr);
    SectionAdds(g.section, y, yr, rest);
    y, yr := SectionToks(g.section, y), SectionToks(g.section, yr);
    WordAdds(g.constant, "const", y, yr, rest);
    y, yr := Word(g.constant, "const", y), Word(g.constant, "const", yr);
    WordAdds(g.used, "used", y, yr, rest);
    y, yr := Word(g.used, "used", y), Word(g.used, "used", yr);
    WordAdds(g.weak, "weak", y, yr, rest);
    y, yr := Word(g.weak, "weak", y), Word(g.weak, "weak", yr);
    WordAdds(g.tls, "tls", y, yr, rest);
    WordAdds(g.tentative, "tentative", Word(g.tls, "tls", y), Word(g.tls, "tls", yr), rest);
  }

  lemma GlobalFrontLexes(syms: seq<string>, g: Global)
    requires GlobalLexes(syms, g)
    ensures AllLex([SymTok(g.name), Ident("size"), IntTok(g.size), Ident("align"), IntTok(g.align), Ident(At(LINKAGES, g.linkage))])
    ensures AllLex([Ident("global")])
  {
    hide SymTok, At, RelocsLex, SectionLexes;
    LinkageLexes(g.linkage);
  }

  lemma GlobalAdds(syms: seq<string>, g: Global, rest: seq<Tok>)
    requires GlobalLexes(syms, g)
    ensures Adds([Ident("global")] + GlobalToks(syms, g, []), [Ident("global")] + GlobalToks(syms, g, rest), rest)
  {
    GlobalFrontLexes(syms, g);
    hide Adds, GlobalMarkToks, InitToks, RelocToks, SymTok, At, AllLex, SectionLexes, RelocsLex, NameLexes;
    RelocsAdd(syms, g.relocs, rest);
    var y, yr := RelocToks(syms, g.relocs, []), RelocToks(syms, g.relocs, rest);
    InitAdds(g.init, y, yr, rest);
    y, yr := InitToks(g.init, y), InitToks(g.init, yr);
    GlobalMarksAdd(g, y, yr, rest);
    AddsFront([SymTok(g.name), Ident("size"), IntTok(g.size), Ident("align"), IntTok(g.align), Ident(At(LINKAGES, g.linkage))],
              GlobalMarkToks(g, y), GlobalMarkToks(g, yr), rest);
    AddsFront([Ident("global")], GlobalToks(syms, g, []), GlobalToks(syms, g, rest), rest);
  }

  // --- edges without arguments ---------------------------------------------------------------

  // From the parentheses on: br a(), defensive and condbr %0, a(), b(...).
  lemma BareEdgeInBranch(m: ModuleNames, f: Func, inst: Inst)
    requires inst.op == OP_BR && Shaped(inst) && inst.result == 0 && inst.edges[0].args == [] && Has(inst.flags, FLAG_FLOW)
    ensures LineText(InstToks(m, f, inst, []), 2) == "(), " + "defensive"
  {
    var ts := InstToks(m, f, inst, []);
    assert ts == [Ident("br"), Ident(BlockName(f, inst.edges[0].target)), LP, RP, Comma, Ident("defensive")];
    hide LineText;
    EndsWith(ts, "defensive");
    BareEdgeText(ts, 2);
  }

  lemma EndsWith(ts: seq<Tok>, word: string)
    requires |ts| > 0 && ts[|ts| - 1] == Ident(word)
    ensures Spelling(ts, |ts| - 1) + LineText(ts, |ts|) == word
  {
  }

  lemma BareEdgeInCondbr(m: ModuleNames, f: Func, inst: Inst)
    requires inst.op == OP_CONDBR && Shaped(inst) && inst.result == 0 && inst.ops[0].kind == OpValue && inst.edges[0].args == []
    ensures |InstToks(m, f, inst, [])| > 8
    ensures LineText(InstToks(m, f, inst, []), 4) ==
              "(), " + (BlockName(f, inst.edges[1].target) + LineText(InstToks(m, f, inst, []), 8))
  {
    var ts, more := InstToks(m, f, inst, []), CommaWord(Has(inst.flags, FLAG_FLOW), "config", []);
    var args := TypedList(m, f, inst.edges[1].args, more);
    ListStarts(m, f, inst.edges[1].args, more);
    var v, a, b := ValTok(f, Verifier.UsedId(inst.ops[0])), BlockName(f, inst.edges[0].target), BlockName(f, inst.edges[1].target);
    hide LineText, ValTok, TypedList, CommaWord, BlockName;
    assert TypedList(m, f, [], [Comma] + ([Ident(b), LP] + args)) == [RP] + ([Comma] + ([Ident(b), LP] + args)) by {
      NoArgs(m, f, [Comma] + ([Ident(b), LP] + args));
    }
    assert ts == [Ident("condbr"), v, Comma, Ident(a), LP, RP, Comma, Ident(b), LP] + args;
    BareEdgeText(ts, 4);
    assert Spelling(ts, 7) == b;
  }

  lemma NoArgs(m: ModuleNames, f: Func, rest: seq<Tok>)
    ensures TypedList(m, f, [], rest) == [RP] + rest
  {
  }

  lemma ListStarts(m: ModuleNames, f: Func, os: seq<Operand>, rest: seq<Tok>)
    ensures TypedList(m, f, os, rest) != []
  {
    hide Atom;
  }
}
