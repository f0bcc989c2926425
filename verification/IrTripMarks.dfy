/** Marks, aliases and globals parse back from what is printed for them. */
module IrTripMarks {
  import opened Shared
  import opened IrTokens
  import opened IrMarks
  import opened Probing
  import IrLex

  // --- lists of words that come in one order ------------------------------------------------

  // If a word comes next it is one of these.
  predicate Begins(ts: seq<Tok>, words: seq<string>) {
    Front(ts).Ident? ==> Front(ts).text in words
  }

  lemma NotNext(words: seq<string>, k: nat, rest: seq<Tok>)
    requires Distinct(words) && k < |words| && Begins(rest, words[k + 1..])
    ensures !IsWord(Front(rest), words[k]) && Begins(rest, words[k..])
  {
    assert words[k..] == [words[k]] + words[k + 1..];
  }

  lemma ComesNext(words: seq<string>, k: nat, ts: seq<Tok>)
    requires k < |words| && Front(ts) == Ident(words[k])
    ensures Begins(ts, words[k..])
  {
    assert words[k..][0] == words[k];
  }

  lemma WordStep(words: seq<string>, k: nat, on: bool, rest: seq<Tok>)
    requires Distinct(words) && k < |words| && Begins(rest, words[k + 1..])
    ensures TakeWord(Word(on, words[k], rest), words[k]) == (on, rest) && Begins(Word(on, words[k], rest), words[k..])
  {
    NotNext(words, k, rest);
    if on {
      ComesNext(words, k, Word(on, words[k], rest));
    }
  }

  lemma NameFound(names: seq<string>, i: nat)
    requires Distinct(names) && i < |names|
    ensures Find(names, names[i]) == i
  {
  }

  lemma NamesDistinct()
    ensures Distinct(VISIBILITIES) && Distinct(LINKAGES)
  {
  }

  lemma AbisDistinct()
    ensures Distinct(ABI_RETURNS)
  {
  }

  lemma Parenthesised(word: string, inner: seq<Tok>, rest: seq<Tok>)
    ensures var ts := InParens(word, inner, rest);
            && |ts| == 3 + |inner| + |rest| && ts[0] == Ident(word) && ts[1] == LP && ts[2 + |inner|] == RP
            && (forall i | 0 <= i < |inner| :: ts[2 + i] == inner[i]) && ts[3 + |inner|..] == rest
  {
  }

  lemma VisibilityStep(words: seq<string>, k: nat, v: nat, rest: seq<Tok>)
    requires Distinct(words) && k < |words| && words[k] == "visibility" && Begins(rest, words[k + 1..]) && v < |VISIBILITIES|
    ensures TakeVisibility(VisibilityToks(v, rest)) == Clause(v, rest) && Begins(VisibilityToks(v, rest), words[k..])
  {
    NotNext(words, k, rest);
    if v != 0 {
      Parenthesised("visibility", [Ident(At(VISIBILITIES, v))], rest);
      NamesDistinct();
      NameFound(VISIBILITIES, v);
      ComesNext(words, k, VisibilityToks(v, rest));
    }
  }

  lemma AlignStep(words: seq<string>, k: nat, align: nat, rest: seq<Tok>)
    requires Distinct(words) && k < |words| && words[k] == "align" && Begins(rest, words[k + 1..]) && align < U32
    ensures TakeFuncAlign(FuncAlignToks(align, rest)) == Clause(align, rest) && Begins(FuncAlignToks(align, rest), words[k..])
  {
    NotNext(words, k, rest);
    if align != 0 {
      Parenthesised("align", [IntTok(align)], rest);
      ComesNext(words, k, FuncAlignToks(align, rest));
    }
  }

  lemma SectionStep(words: seq<string>, k: nat, section: Option<seq<nat>>, rest: seq<Tok>)
    requires Distinct(words) && k < |words| && words[k] == "section" && Begins(rest, words[k + 1..])
    ensures TakeSection(SectionToks(section, rest)) == Clause(section, rest) && Begins(SectionToks(section, rest), words[k..])
  {
    NotNext(words, k, rest);
    if section.Some? {
      Parenthesised("section", [Str(section.value)], rest);
      ComesNext(words, k, SectionToks(section, rest));
    }
  }

  predicate StartOk(start: Option<nat>) {
    start.Some? ==> start.value <= DEFAULT_PRIORITY
  }

  lemma StartStep(words: seq<string>, k: nat, start: Option<nat>, rest: seq<Tok>)
    requires Distinct(words) && k < |words| && Begins(rest, words[k + 1..]) && StartOk(start) && !Front(rest).LP?
    ensures TakeStart(words[k], StartToks(words[k], start, rest)) == Clause(start, rest)
    ensures Begins(StartToks(words[k], start, rest), words[k..]) && !Front(StartToks(words[k], start, rest)).LP?
  {
    NotNext(words, k, rest);
    if start.Some? {
      Parenthesised(words[k], [IntTok(start.value)], rest);
      assert ([Ident(words[k])] + rest)[1..] == rest;
      ComesNext(words, k, StartToks(words[k], start, rest));
    }
  }

  predicate AbiOk(abi: nat, leaves: nat) {
    abi < 9 && if abi >= ABI_HFA then leaves < 256 else leaves == 0
  }

  lemma AbiNamed(abi: nat)
    requires 0 < abi < 9
    ensures AbiOf(Ident(At(ABI_RETURNS, abi))) == abi
  {
    AbisDistinct();
    NameFound(ABI_RETURNS, abi);
  }

  lemma AbiStep(words: seq<string>, k: nat, abi: nat, leaves: nat, rest: seq<Tok>)
    requires Distinct(words) && k < |words| && words[k] == "abi" && Begins(rest, words[k + 1..]) && AbiOk(abi, leaves)
    ensures TakeAbi(AbiToks(abi, leaves, rest)) == Clause((abi, leaves), rest) && Begins(AbiToks(abi, leaves, rest), words[k..])
    ensures !Front(rest).LP? ==> !Front(AbiToks(abi, leaves, rest)).LP?
  {
    hide AbiOf, At;
    NotNext(words, k, rest);
    if abi != 0 {
      var name := Ident(At(ABI_RETURNS, abi));
      AbiNamed(abi);
      if abi >= ABI_HFA {
        Parenthesised("abi", [name, Comma, IntTok(leaves)], rest);
      } else {
        Parenthesised("abi", [name], rest);
      }
      ComesNext(words, k, AbiToks(abi, leaves, rest));
    }
  }

  // --- functions ------------------------------------------------------------------------------

  const FUNC_WORDS: seq<string> :=
    ["unproto", "internal", "weak", "visibility", "align", "used", "always_inline", "inline_only", "returns_twice", "section",
     "constructor", "destructor", "abi", "setjmp", "contract"]

  lemma FuncWordsDistinct()
    ensures Distinct(FUNC_WORDS)
  {
  }

  predicate FuncMarksOk(k: FuncMarks) {
    k.visibility < |VISIBILITIES| && k.align < U32 && StartOk(k.ctor) && StartOk(k.dtor) && AbiOk(k.abi, k.leaves)
  }

  lemma EndMarksBack(k0: FuncMarks, k: FuncMarks, rest: seq<Tok>)
    requires FuncMarksOk(k) && Begins(rest, []) && !Front(rest).LP?
    ensures TakeEndMarks(k0, EndMarkToks(k, rest)) ==
              Clause(k0.(ctor := k.ctor, dtor := k.dtor, abi := k.abi, leaves := k.leaves, setjmp := k.setjmp, contract := k.contract), rest)
    ensures Begins(EndMarkToks(k, rest), FUNC_WORDS[10..])
  {
    hide TakeStart, StartToks, TakeAbi, AbiToks, TakeWord, Word, Begins;
    FuncWordsDistinct();
    assert FUNC_WORDS[15..] == [];
    var w, all := FUNC_WORDS, EndMarkToks(k, rest);
    WordStep(w, 14, k.contract, rest);
    var x4 := Word(k.contract, "contract", rest);
    WordStep(w, 13, k.setjmp, x4);
    var x3 := Word(k.setjmp, "setjmp", x4);
    WordFront(k.contract, "contract", rest);
    WordFront(k.setjmp, "setjmp", x4);
    AbiStep(w, 12, k.abi, k.leaves, x3);
    var x2 := AbiToks(k.abi, k.leaves, x3);
    StartStep(w, 11, k.dtor, x2);
    var x1 := StartToks("destructor", k.dtor, x2);
    StartStep(w, 10, k.ctor, x1);
  }

  lemma WordFront(on: bool, word: string, rest: seq<Tok>)
    requires !Front(rest).LP?
    ensures !Front(Word(on, word, rest)).LP?
  {
  }

  lemma MiddleMarksBack(k0: FuncMarks, k: FuncMarks, rest: seq<Tok>)
    requires FuncMarksOk(k) && Begins(rest, []) && !Front(rest).LP?
    ensures TakeMiddleMarks(k0, MiddleMarkToks(k, rest)) ==
              Clause(k.(unproto := k0.unproto, internal := k0.internal, weak := k0.weak, visibility := k0.visibility, align := k0.align), rest)
    ensures Begins(MiddleMarkToks(k, rest), FUNC_WORDS[5..])
  {
    hide TakeSection, SectionToks, TakeWord, Word, Begins, EndMarkToks, TakeEndMarks;
    FuncWordsDistinct();
    var w := FUNC_WORDS;
    var k1 := k0.(used := k.used, alwaysInline := k.alwaysInline, inlineOnly := k.inlineOnly, returnsTwice := k.returnsTwice, section := k.section);
    EndMarksBack(k1, k, rest);
    var x5 := EndMarkToks(k, rest);
    SectionStep(w, 9, k.section, x5);
    var x4 := SectionToks(k.section, x5);
    WordStep(w, 8, k.returnsTwice, x4);
    var x3 := Word(k.returnsTwice, "returns_twice", x4);
    WordStep(w, 7, k.inlineOnly, x3);
    var x2 := Word(k.inlineOnly, "inline_only", x3);
    WordStep(w, 6, k.alwaysInline, x2);
    var x1 := Word(k.alwaysInline, "always_inline", x2);
    WordStep(w, 5, k.used, x1);
  }

  // The marks of a function, up to its opening brace.
  lemma FuncMarksBack(k: FuncMarks, rest: seq<Tok>)
    requires FuncMarksOk(k) && Begins(rest, []) && !Front(rest).LP?
    ensures TakeFuncMarks(FuncMarkToks(k, rest)) == Clause(k, rest)
  {
    hide TakeVisibility, VisibilityToks, TakeFuncAlign, FuncAlignToks, TakeWord, Word, Begins, MiddleMarkToks, TakeMiddleMarks;
    FuncWordsDistinct();
    var w := FUNC_WORDS;
    var k0 := NO_MARKS.(unproto := k.unproto, internal := k.internal, weak := k.weak, visibility := k.visibility, align := k.align);
    MiddleMarksBack(k0, k, rest);
    var x4 := MiddleMarkToks(k, rest);
    AlignStep(w, 4, k.align, x4);
    var x3 := FuncAlignToks(k.align, x4);
    VisibilityStep(w, 3, k.visibility, x3);
    var x2 := VisibilityToks(k.visibility, x3);
    WordStep(w, 2, k.weak, x2);
    var x1 := Word(k.weak, "weak", x2);
    WordStep(w, 1, k.internal, x1);
    var x0 := Word(k.internal, "internal", x1);
    WordStep(w, 0, k.unproto, x0);
  }

  // --- parameters -----------------------------------------------------------------------------

  const PARAM_WORDS: seq<string> := ["byval", "onstack", "stackalign16", "stackalign", "even", "restrict"]

  predicate ParamMarkOk(p: ParamMark) {
    && (p.byval.Some? ==> p.byval.value < U32)
    && p.align % 8 == 0 && p.align <= 0x100_0000
  }

  lemma ByvalStep(byval: Option<nat>, rest: seq<Tok>)
    requires Begins(rest, PARAM_WORDS[1..]) && (byval.Some? ==> byval.value < U32)
    ensures TakeByval(ByvalToks(byval, rest)) == Clause(byval, rest)
  {
    NotNext(PARAM_WORDS, 0, rest);
    if byval.Some? {
      Parenthesised("byval", [IntTok(byval.value)], rest);
    }
  }

  lemma StackAlignStep(align: nat, rest: seq<Tok>)
    requires Begins(rest, PARAM_WORDS[4..]) && align % 8 == 0 && align <= 0x100_0000
    ensures TakeStackAlign(StackAlignToks(align, rest)) == Clause(align, rest)
    ensures Begins(StackAlignToks(align, rest), PARAM_WORDS[2..])
  {
    NotNext(PARAM_WORDS, 3, rest);
    NotNext(PARAM_WORDS, 2, rest);
    if align == 16 {
      ComesNext(PARAM_WORDS, 2, StackAlignToks(align, rest));
      assert ([Ident("stackalign16")] + rest)[1..] == rest;
    } else if align != 0 {
      Parenthesised("stackalign", [IntTok(align)], rest);
      assert PARAM_WORDS[2..][1] == "stackalign";
    }
  }

  lemma ParamMarkBack(p: ParamMark, rest: seq<Tok>)
    requires ParamMarkOk(p) && Begins(rest, [])
    ensures TakeParamMark(ParamMarkToks(p, rest)) == Clause(p, rest)
  {
    hide TakeByval, ByvalToks, TakeStackAlign, StackAlignToks, TakeWord, Word, Begins;
    var w := PARAM_WORDS;
    assert w[6..] == [];
    WordStep(w, 5, p.restricted, rest);
    var x3 := Word(p.restricted, "restrict", rest);
    WordStep(w, 4, p.even, x3);
    var x2 := Word(p.even, "even", x3);
    StackAlignStep(p.align, x2);
    var x1 := StackAlignToks(p.align, x2);
    WordStep(w, 1, p.onstack, x1);
    ByvalStep(p.byval, Word(p.onstack, "onstack", x1));
  }

  // --- symbols and aliases ------------------------------------------------------------------------

  // The words that start a record.
  const RECORDS: seq<string> := ["ident", "sym", "alias", "global", "func"]

  const SYM_WORDS: seq<string> := ["weak", "visibility", "tls", "returns_twice", "ident", "sym", "alias", "global", "func"]

  lemma SymWords()
    ensures Distinct(SYM_WORDS) && SYM_WORDS[4..] == RECORDS
  {
  }

  predicate SymMarksOk(k: SymMarks) {
    k.visibility < |VISIBILITIES|
  }

  function TlsToks(on: bool, rest: seq<Tok>): seq<Tok> {
    if on then InParens("tls", [Ident("initial_exec")], rest) else rest
  }

  lemma TlsStep(on: bool, rest: seq<Tok>)
    requires Begins(rest, SYM_WORDS[3..])
    ensures TakeTls(TlsToks(on, rest)) == Clause(on, rest) && Begins(TlsToks(on, rest), SYM_WORDS[2..])
  {
    SymWords();
    NotNext(SYM_WORDS, 2, rest);
    if on {
      Parenthesised("tls", [Ident("initial_exec")], rest);
      ComesNext(SYM_WORDS, 2, TlsToks(on, rest));
    }
  }

  lemma SymMarksBack(k: SymMarks, rest: seq<Tok>)
    requires SymMarksOk(k) && Begins(rest, RECORDS)
    ensures TakeSymMarks(SymMarkToks(k, rest)) == Clause(k, rest)
  {
    hide TakeVisibility, VisibilityToks, TakeTls, TakeWord, Word, Begins, InParens;
    SymWords();
    var w := SYM_WORDS;
    WordStep(w, 3, k.returnsTwice, rest);
    var x2 := Word(k.returnsTwice, "returns_twice", rest);
    TlsStep(k.initialExec, x2);
    var x1 := TlsToks(k.initialExec, x2);
    VisibilityStep(w, 1, k.visibility, x1);
    var x0 := VisibilityToks(k.visibility, x1);
    WordStep(w, 0, k.weak, x0);
  }

  lemma SymTokName(name: string)
    ensures SymTok(name).Symbol? && TokName(SymTok(name)) == name
  {
    if name != "" && name[0] == '!' {
      assert "!" + name[1..] == name;
    }
  }

  const ALIAS_WORDS: seq<string> := ["weak", "visibility", "ident", "sym", "alias", "global", "func"]

  lemma AliasWords()
    ensures Distinct(ALIAS_WORDS) && ALIAS_WORDS[2..] == RECORDS
  {
  }

  predicate AliasOk(a: Alias) {
    a.linkage < |LINKAGES| && a.visibility < |VISIBILITIES|
  }

  lemma LinkageBack(linkage: nat)
    requires linkage < |LINKAGES|
    ensures LinkageOf(Ident(At(LINKAGES, linkage))) == linkage
  {
    NamesDistinct();
    NameFound(LINKAGES, linkage);
  }

  lemma AliasBack(a: Alias, rest: seq<Tok>)
    requires AliasOk(a) && Begins(rest, RECORDS)
    ensures TakeAlias(AliasToks(a, rest)) == Clause(a, rest)
  {
    hide TakeVisibility, VisibilityToks, TakeWord, Word, Begins, SymTok, LinkageOf, At;
    AliasWords();
    var w := ALIAS_WORDS;
    VisibilityStep(w, 1, a.visibility, rest);
    var x1 := VisibilityToks(a.visibility, rest);
    WordStep(w, 0, a.weak, x1);
    SymTokName(a.name);
    SymTokName(a.target);
    LinkageBack(a.linkage);
    var ts, x0 := AliasToks(a, rest), Word(a.weak, "weak", x1);
    assert ts[4..] == x0;
  }

  // --- globals ----------------------------------------------------------------------------------------

  lemma {:induction false} BytesBack(bytes: seq<nat>)
    requires IrLex.AllBytes(bytes)
    ensures ReadBytes(HexBytes(bytes)) == Image(bytes)
  {
    if bytes != [] {
      BytesBack(bytes[1..]);
      ByteBack(bytes[0], HexBytes(bytes[1..]));
      assert bytes == [bytes[0]] + bytes[1..];
    }
  }

  lemma ByteBack(b: nat, more: string)
    requires b < 256
    ensures ReadBytes(IrLex.HexDigits(b, 2, false) + more) ==
              match ReadBytes(more) case BadImage => BadImage case Image(rest) => Image([b] + rest)
  {
    assert IrLex.Power16(2) == 256;
    IrLex.HexDigitsBack(b, 2, false);
    var d := IrLex.HexDigits(b, 2, false);
    var s := d + more;
    assert s[0] == d[0] && s[1] == d[1] && s[2..] == more;
    assert d[..1][..0] == "" && IrLex.HexNumber(d[..1]) == IrLex.HexVal(d[0]);
    assert IrLex.HexNumber(d) == IrLex.HexVal(d[0]) * 16 + IrLex.HexVal(d[1]);
  }

  const GLOBAL_WORDS: seq<string> :=
    ["tentative", "tls", "weak", "used", "const", "section", "visibility", "init", "reloc", "ident", "sym", "alias", "global", "func"]

  lemma GlobalWords()
    ensures Distinct(GLOBAL_WORDS) && GLOBAL_WORDS[9..] == RECORDS
  {
  }

  predicate GlobalOk(syms: seq<string>, g: Global) {
    && g.name in syms && g.size < U64 && g.align < U32 && g.linkage < |LINKAGES| && g.visibility < |VISIBILITIES|
    && (g.init.Some? ==> IrLex.AllBytes(g.init.value) && |g.init.value| == g.size)
    && (forall i | 0 <= i < |g.relocs| :: g.relocs[i].symbol < |syms|)
  }

  lemma InitStep(init: Option<seq<nat>>, size: nat, rest: seq<Tok>)
    requires Begins(rest, GLOBAL_WORDS[8..]) && (init.Some? ==> IrLex.AllBytes(init.value) && |init.value| == size)
    ensures TakeInit(size, InitToks(init, rest)) == Clause(init, rest) && Begins(InitToks(init, rest), GLOBAL_WORDS[7..])
  {
    GlobalWords();
    NotNext(GLOBAL_WORDS, 7, rest);
    if init.Some? {
      var ts, word := InitToks(init, rest), "x" + HexBytes(init.value);
      BytesBack(init.value);
      assert word[1..] == HexBytes(init.value) && ts[2..] == rest;
      ComesNext(GLOBAL_WORDS, 7, ts);
    }
  }

  lemma {:induction false} RelocsBack(syms: seq<string>, relocs: seq<Reloc>, rest: seq<Tok>)
    requires Distinct(syms) && (forall i | 0 <= i < |relocs| :: relocs[i].symbol < |syms|) && Begins(rest, RECORDS)
    ensures TakeRelocs(syms, RelocToks(syms, relocs, rest)) == Relocs(relocs, syms, rest)
    ensures Begins(RelocToks(syms, relocs, rest), GLOBAL_WORDS[8..])
    decreases |relocs|
  {
    hide SymTok, TakeRelocs, Begins, Distinct;
    if relocs == [] {
      NoRelocs(syms, rest);
    } else {
      RelocsBack(syms, relocs[1..], rest);
      OneReloc(syms, relocs[0], relocs[1..], rest);
      assert relocs == [relocs[0]] + relocs[1..];
    }
  }

  lemma NoRelocs(syms: seq<string>, rest: seq<Tok>)
    requires Begins(rest, RECORDS)
    ensures TakeRelocs(syms, rest) == Relocs([], syms, rest) && Begins(rest, GLOBAL_WORDS[8..])
  {
    GlobalWords();
    NotNext(GLOBAL_WORDS, 8, rest);
  }

  lemma OneReloc(syms: seq<string>, r: Reloc, relocs: seq<Reloc>, rest: seq<Tok>)
    requires Distinct(syms) && r.symbol < |syms|
    ensures var more := RelocToks(syms, relocs, rest);
            var ts := [Ident("reloc"), IntTok(r.offset), SymTok(At(syms, r.symbol)), IntTok(r.addend)] + more;
            && Begins(ts, GLOBAL_WORDS[8..])
            && TakeRelocs(syms, ts) == match TakeRelocs(syms, more)
                                       case BadRelocs => BadRelocs
                                       case Relocs(xs, syms', rest') => Relocs([r] + xs, syms', rest')
  {
    hide SymTok, RelocToks;
    var more := RelocToks(syms, relocs, rest);
    var ts := [Ident("reloc"), IntTok(r.offset), SymTok(At(syms, r.symbol)), IntTok(r.addend)] + more;
    SymTokName(syms[r.symbol]);
    NameFound(syms, r.symbol);
    assert Inserted(syms, syms[r.symbol]) == syms;
    assert ts[4..] == more;
    ComesNext(GLOBAL_WORDS, 8, ts);
  }

  lemma GlobalMarksBack(plain: Global, g: Global, rest: seq<Tok>)
    requires g.visibility < |VISIBILITIES| && Begins(rest, GLOBAL_WORDS[7..])
    ensures TakeGlobalMarks(plain, GlobalMarkToks(g, rest)) ==
              Clause(plain.(tentative := g.tentative, tls := g.tls, weak := g.weak, used := g.used, constant := g.constant,
                            section := g.section, visibility := g.visibility), rest)
  {
    hide TakeVisibility, VisibilityToks, TakeSection, SectionToks, TakeWord, Word, Begins;
    GlobalWords();
    var w := GLOBAL_WORDS;
    VisibilityStep(w, 6, g.visibility, rest);
    var x6 := VisibilityToks(g.visibility, rest);
    SectionStep(w, 5, g.section, x6);
    var x5 := SectionToks(g.section, x6);
    WordStep(w, 4, g.constant, x5);
    var x4 := Word(g.constant, "const", x5);
    WordStep(w, 3, g.used, x4);
    var x3 := Word(g.used, "used", x4);
    WordStep(w, 2, g.weak, x3);
    var x2 := Word(g.weak, "weak", x3);
    WordStep(w, 1, g.tls, x2);
    var x1 := Word(g.tls, "tls", x2);
    WordStep(w, 0, g.tentative, x1);
  }

  // A global with its image, embedded zeros included, and its relocations.
  lemma GlobalBack(syms: seq<string>, g: Global, rest: seq<Tok>)
    requires Distinct(syms) && GlobalOk(syms, g) && Begins(rest, RECORDS)
    ensures TakeGlobal(syms, GlobalToks(syms, g, rest)) == GlobalResult(g, syms, rest)
  {
    hide TakeGlobalMarks, GlobalMarkToks, TakeInit, InitToks, TakeRelocs, RelocToks, Begins, SymTok, LinkageOf, At;
    var x2 := RelocToks(syms, g.relocs, rest);
    var x1 := InitToks(g.init, x2);
    var x0 := GlobalMarkToks(g, x1);
    RelocsBack(syms, g.relocs, rest);
    InitStep(g.init, g.size, x2);
    var plain := Global(g.name, g.size, g.align, g.linkage, false, false, false, false, false, None, 0, None, []);
    GlobalMarksBack(plain, g, x1);
    SymTokName(g.name);
    LinkageBack(g.linkage);
    assert Inserted(syms, g.name) == syms;
    assert GlobalToks(syms, g, rest)[6..] == x0;
  }
}
