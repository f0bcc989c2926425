/** Printing a module as text and parsing that text: what comes back, and exactly
    when it is the module. */
module IrTextLaw {
  import opened Ir
  import opened IrTokens
  import opened IrMarks
  import opened IrPrint
  import opened IrRecords
  import opened IrModuleText
  import opened IrRoundTrip
  import opened IrSpell
  import opened IrText
  import opened IrTripBlocks
  import opened IrTripFunc
  import opened IrTripMarks
  import opened IrTripText
  import opened IrWords
  import IrLex

  // Bytes are bytes, and offsets and addends have 64 bits.
  predicate FieldsFit(m: Module) {
    && (forall i | 0 <= i < |m.idents| :: IrLex.AllBytes(m.idents[i]))
    && (forall i | 0 <= i < |m.globals| :: SectionLexes(m.globals[i].section) && RelocsFit(m.globals[i].relocs))
    && forall i | 0 <= i < |m.funcs| :: SectionLexes(m.funcs[i].header.marks.section)
  }

  predicate RelocsFit(relocs: seq<Reloc>) {
    forall i | 0 <= i < |relocs| :: relocs[i].offset < U64 && relocs[i].addend < U64
  }

  // Every symbol and label is made of the characters of a word.
  predicate NamesSpelled(m: Module) {
    && AllNames(m.syms) && (forall i | 0 <= i < |m.aliases| :: NameLexes(m.aliases[i].target))
    && forall i | 0 <= i < |m.funcs| :: BlockNamesLex(m.funcs[i].func.blocks)
  }

  // --- every line can be lexed ---------------------------------------------------------------

  lemma NameKnown(syms: seq<string>, name: string)
    requires AllNames(syms) && name in syms
    ensures NameLexes(name)
  {
    hide NameLexes;
  }

  lemma GlobalSpelled(m: Module, i: nat)
    requires ModuleOk(m) && FieldsFit(m) && NamesSpelled(m) && i < |m.globals|
    ensures GlobalLexes(m.syms, m.globals[i])
  {
    hide NameLexes, SectionLexes, FuncTextOk, BlockNamesLex, AliasesOk;
    assert GlobalOk(m.syms, m.globals[i]);
    NameKnown(m.syms, m.globals[i].name);
  }

  lemma AliasSpelled(m: Module, i: nat)
    requires ModuleOk(m) && NamesSpelled(m) && i < |m.aliases|
    ensures AliasLexes(m.aliases[i])
  {
    hide NameLexes, FuncTextOk, BlockNamesLex, GlobalsOk;
    NameKnown(m.syms, m.aliases[i].name);
  }

  lemma BlocksFit(m: ModuleNames, f: Func)
    requires FuncOk(m, f)
    ensures forall b | 0 <= b < |f.blocks| :: BlockFits(m, f, f.blocks[b])
  {
    hide InstOk, InstFits;
    forall b | 0 <= b < |f.blocks|
      ensures BlockFits(m, f, f.blocks[b])
    {
      assert BlockPrintable(m, f, f.blocks[b]);
      forall i | 0 <= i < |f.blocks[b].insts|
        ensures InstFits(m, f, f.blocks[b].insts[i])
      {
        assert InstPrintable(m, f, f.blocks[b].insts[i]);
        InstOkFits(m, f, f.blocks[b].insts[i]);
      }
    }
  }

  lemma FuncSpelled(m: Module, i: nat)
    requires ModuleOk(m) && FieldsFit(m) && NamesSpelled(m) && i < |m.funcs|
    ensures FuncFits(NamesOf(m), m.funcs[i])
  {
    hide NameLexes, SectionLexes, FuncOk, FuncShaped, NamesOk, BlockFits, AliasesOk, GlobalsOk, FuncMarksOk, ParamMarkOk, Lexes;
    var t := m.funcs[i];
    forall j | 0 <= j < |m.funcs|
      ensures NameLexes(m.funcs[j].header.name)
    {
      assert FuncTextOk(NamesOf(m), m.funcs[j]);
      NameKnown(m.syms, m.funcs[j].header.name);
    }
    assert FuncTextOk(NamesOf(m), t);
    assert BlockNamesLex(t.func.blocks);
    BlocksFit(NamesOf(m), t.func);
  }

  // The lines hold the printer's tokens, and can be lexed.
  lemma ModuleLined(m: Module)
    requires ModuleOk(m) && FieldsFit(m) && NamesSpelled(m) && ModuleShaped(m)
    ensures LinesLex(ModuleLines(m)) && LinesToks(ModuleLines(m)) + [Eof] == ModuleToks(m)
  {
    hide NameLexes, FuncTextOk, FuncFits, GlobalLexes, AliasLexes, AliasesOk, GlobalsOk, BlockNamesLex, SymMarksOk, FuncShaped, LineLexes, NamesOf,
         SymRecords, IdentRecords, AliasRecords, GlobalRecords, FuncRecords, IdentLines, SymLines, AliasLines, GlobalLines, FuncsLines, SectionLexes;
    forall i | 0 <= i < |m.funcs| ensures FuncFits(NamesOf(m), m.funcs[i]) { FuncSpelled(m, i); }
    forall i | 0 <= i < |m.globals| ensures GlobalLexes(m.syms, m.globals[i]) { GlobalSpelled(m, i); }
    forall i | 0 <= i < |m.aliases| ensures AliasLexes(m.aliases[i]) { AliasSpelled(m, i); }
    var funcs := FuncRecords(NamesOf(m), m.funcs, [Eof]);
    FuncsLined(NamesOf(m), m.funcs, [Eof]);
    GlobalsLined(m.syms, m.globals, funcs);
    AliasesLined(m.aliases, GlobalRecords(m.syms, m.globals, funcs));
    SymsLined(m.syms, m.marks, AliasRecords(m.aliases, GlobalRecords(m.syms, m.globals, funcs)));
    IdentsLined(m.idents, SymRecords(m.syms, m.marks, AliasRecords(m.aliases, GlobalRecords(m.syms, m.globals, funcs))));
    FiveParts(IdentLines(m.idents), SymLines(m.syms, m.marks), AliasLines(m.aliases), GlobalLines(m.syms, m.globals),
              FuncsLines(NamesOf(m), m.funcs), [Eof]);
  }

  lemma FiveParts(a: seq<Line>, b: seq<Line>, c: seq<Line>, d: seq<Line>, e: seq<Line>, rest: seq<Tok>)
    requires LinesLex(a) && LinesLex(b) && LinesLex(c) && LinesLex(d) && LinesLex(e)
    ensures LinesLex(a + b + c + d + e)
    ensures LinesToks(a + b + c + d + e) + rest == LinesToks(a) + (LinesToks(b) + (LinesToks(c) + (LinesToks(d) + (LinesToks(e) + rest))))
  {
    hide LinesLex, LinesToks;
    LinesLexAppend(a, b);
    LinesLexAppend(a + b, c);
    LinesLexAppend(a + b + c, d);
    LinesLexAppend(a + b + c + d, e);
    LinesAppend(a, b);
    LinesAppend(a + b, c);
    LinesAppend(a + b + c, d);
    LinesAppend(a + b + c + d, e);
  }

  // --- the laws --------------------------------------------------------------------------------

  // The printer's own text is one of the texts whose words are kept apart.
  lemma PrintedIsText(m: Module)
    requires ModuleOk(m) && FieldsFit(m) && NamesSpelled(m)
    ensures ModuleShaped(m) && TextOf(m, Pieces(ModuleLines(m), ""), TextTail(ModuleLines(m)))
    ensures IrLex.Render(Pieces(ModuleLines(m), ""), TextTail(ModuleLines(m))) == PrintText(m)
  {
    hide ModuleOk, FieldsFit, NamesSpelled, ModuleToks, LinesLex, ModuleShaped, ModuleLines, Pieces, IrLex.WellSpaced;
    Shapes(m);
    ModuleLined(m);
    LinesLexBack(ModuleLines(m));
  }

  // Parsing the printed text gives the module as it was.
  predicate Survives(m: Module)
    requires ModuleShaped(m)
  {
    ParseText(PrintText(m)) == ParsedModule(ContentsOf(m, AllPrinted(m.funcs)))
  }

  // A name that cannot be spelled is in no module the parser gives.
  lemma ReturnedNamesLex(m: Module)
    requires ModuleShaped(m) && Survives(m)
    ensures NamesSpelled(m)
  {
    hide ParseModule, NameLexes, IrLex.LexAll, PrintText, FuncShaped;
    ParsedNamesLex(PrintText(m));
    var c := ContentsOf(m, AllPrinted(m.funcs));
    assert ContentsLex(c);
    forall i | 0 <= i < |m.funcs|
      ensures BlockNamesLex(m.funcs[i].func.blocks)
    {
      var blocks := c.funcs[i].blocks;
      assert BlockNamesLex(blocks);
      assert forall b | 0 <= b < |blocks| :: blocks[b].name == m.funcs[i].func.blocks[b].name;
    }
  }

  // A module survives exactly when every name in it can be spelled and no function
  // passes a flagged argument before its value is defined.
  lemma PrintParseExactly(m: Module)
    requires ModuleOk(m) && FieldsFit(m)
    ensures ModuleShaped(m)
    ensures Survives(m) <==>
              NamesSpelled(m) && forall i: nat, b: nat, j: nat, q: nat | i < |m.funcs| :: !LosesFlag(m.funcs[i].func, b, j, q)
  {
    hide ModuleOk, FieldsFit, NamesSpelled, ParseText, PrintText, ModuleShaped, LosesFlag, Pieces, ModuleLines, TextOf;
    Shapes(m);
    if Survives(m) {
      ReturnedNamesLex(m);
    }
    if NamesSpelled(m) {
      PrintedIsText(m);
      TextRoundTripExactly(m, Pieces(ModuleLines(m), ""), TextTail(ModuleLines(m)));
    }
  }

  // Modules that print alike are alike but for the flags of forward call arguments.
  lemma PrintTells(m: Module, n: Module)
    requires ModuleOk(m) && FieldsFit(m) && NamesSpelled(m) && ModuleOk(n) && FieldsFit(n) && NamesSpelled(n)
    ensures ModuleShaped(m) && ModuleShaped(n)
    ensures PrintText(m) == PrintText(n) ==> ContentsOf(m, AllReturned(m.funcs)) == ContentsOf(n, AllReturned(n.funcs))
  {
    hide ModuleOk, FieldsFit, NamesSpelled, PrintText, ModuleShaped, Pieces, ModuleLines, ModuleToks, ParseModule, IrLex.LexAll;
    TextReturns(m);
    TextReturns(n);
  }

  lemma TextReturns(m: Module)
    requires ModuleOk(m) && FieldsFit(m) && NamesSpelled(m)
    ensures ModuleShaped(m) && ParseText(PrintText(m)) == ParsedModule(ContentsOf(m, AllReturned(m.funcs)))
  {
    hide ModuleOk, FieldsFit, NamesSpelled, ParseModule, ModuleToks, ModuleShaped, ModuleLines, Pieces, IrLex.WellSpaced, LinesLex;
    Shapes(m);
    ModuleLined(m);
    LinesLexBack(ModuleLines(m));
    ModuleBack(m);
  }

  // --- a name that does not survive ---------------------------------------------------------------

  // One symbol whose assembler spelling has a dash in it.
  const DASHED := Module([], ["!a-b"], [UNMARKED], [], [], [])

  lemma NameDoesNotSurvive()
    ensures ModuleOk(DASHED) && FieldsFit(DASHED) && ModuleShaped(DASHED) && PrintText(DASHED) == "sym @!a-b\n"
    ensures !Survives(DASHED)
  {
    DashedText();
    DashedNotSpelled();
    hide PrintText, Survives, NamesSpelled, LosesFlag;
    PrintParseExactly(DASHED);
  }

  lemma DashedNotSpelled()
    ensures !NamesSpelled(DASHED)
  {
    assert !NameLexes("!a-b") by {
      assert SymTok("!a-b") == Symbol(true, "a-b") && !IrLex.IdentChar("a-b"[1]);
    }
    assert DASHED.syms[0] == "!a-b";
  }

  lemma DashedText()
    ensures ModuleShaped(DASHED) && PrintText(DASHED) == "sym @!a-b\n"
  {
    var line := Line("", [Ident("sym"), Symbol(true, "a-b")]);
    assert SymTok("!a-b") == Symbol(true, "a-b");
    assert SymMarkToks(UNMARKED, []) == [];
    assert IdentLines([]) == [] && AliasLines([]) == [] && GlobalLines(DASHED.syms, []) == [] && FuncsLines(NamesOf(DASHED), []) == [];
    assert SymLines(DASHED.syms, DASHED.marks)[0] == line by {
      assert DASHED.syms[0] == "!a-b" && DASHED.marks[0] == UNMARKED;
      assert [Ident("sym"), Symbol(true, "a-b")] + [] == line.toks;
    }
    assert SymLines(DASHED.syms, DASHED.marks) == [line];
    assert ModuleLines(DASHED) == [line];
    var ts := line.toks;
    assert LineText(ts, 2) == "";
    assert LineText(ts, 1) == " @!a-b";
    assert LineText(ts, 0) == "sym @!a-b";
    assert LinesText([line][1..]) == "";
  }
}
