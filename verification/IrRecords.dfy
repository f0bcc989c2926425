/** A module as tokens: identification strings, the full symbol table in order,
    aliases, globals, then functions; as the printer writes them and as the
    parser reads them. */
module IrRecords {
  import opened Ir
  import opened IrTokens
  import opened IrMarks
  import opened IrPrint
  import opened IrParse
  import Probing
  import Symbols

  datatype FuncText = FuncText(header: Header, func: Func)

  // marks[s] belongs to symbol s.
  datatype Module = Module(
    idents: seq<seq<nat>>, syms: seq<string>, marks: seq<SymMarks>, aliases: seq<Alias>, globals: seq<Global>, funcs: seq<FuncText>)

  function FuncNames(funcs: seq<FuncText>): (r: seq<string>)
    ensures |r| == |funcs|
  {
    seq(|funcs|, i requires 0 <= i < |funcs| => funcs[i].header.name)
  }

  function FuncDefinitions(funcs: seq<FuncText>): (r: seq<Symbols.Definition>)
    ensures |r| == |funcs|
  {
    seq(|funcs|, i requires 0 <= i < |funcs| =>
      Symbols.Definition(funcs[i].header.name, if funcs[i].header.marks.internal then Symbols.Internal else Symbols.External))
  }

  function GlobalDefinitions(globals: seq<Global>): (r: seq<Symbols.Definition>)
    ensures |r| == |globals|
  {
    seq(|globals|, i requires 0 <= i < |globals| =>
      Symbols.Definition(globals[i].name, if globals[i].linkage == 0 then Symbols.Internal else if globals[i].linkage == 1 then Symbols.External else Symbols.Common))
  }

  // The tables instructions refer to; each symbol's definition site is the one
  // the symbol table keeps.
  function NamesOf(m: Module): ModuleNames {
    ModuleNames(m.syms,
                seq(|m.syms|, s requires 0 <= s < |m.syms| =>
                  Symbols.DefinedAt(m.syms[s], GlobalDefinitions(m.globals), FuncDefinitions(m.funcs))),
                FuncNames(m.funcs))
  }

  // --- printing ------------------------------------------------------------------------------

  function IdentRecords(idents: seq<seq<nat>>, rest: seq<Tok>): seq<Tok> {
    if idents == [] then rest else [Ident("ident"), Str(idents[0])] + IdentRecords(idents[1..], rest)
  }

  function SymRecords(syms: seq<string>, marks: seq<SymMarks>, rest: seq<Tok>): seq<Tok>
    requires |marks| == |syms|
  {
    if syms == [] then rest else [Ident("sym"), SymTok(syms[0])] + SymMarkToks(marks[0], SymRecords(syms[1..], marks[1..], rest))
  }

  function AliasRecords(aliases: seq<Alias>, rest: seq<Tok>): seq<Tok> {
    if aliases == [] then rest else [Ident("alias")] + AliasToks(aliases[0], AliasRecords(aliases[1..], rest))
  }

  function GlobalRecords(syms: seq<string>, globals: seq<Global>, rest: seq<Tok>): seq<Tok> {
    if globals == [] then rest else [Ident("global")] + GlobalToks(syms, globals[0], GlobalRecords(syms, globals[1..], rest))
  }

  predicate AllFuncsShaped(funcs: seq<FuncText>) {
    forall i | 0 <= i < |funcs| :: FuncShaped(funcs[i].func)
  }

  function FuncRecords(m: ModuleNames, funcs: seq<FuncText>, rest: seq<Tok>): seq<Tok>
    requires AllFuncsShaped(funcs)
  {
    if funcs == [] then rest else FuncToks(m, funcs[0].header, funcs[0].func, FuncRecords(m, funcs[1..], rest))
  }

  predicate ModuleShaped(m: Module) {
    |m.marks| == |m.syms| && AllFuncsShaped(m.funcs)
  }

  function ModuleToks(m: Module): seq<Tok>
    requires ModuleShaped(m)
  {
    IdentRecords(m.idents, SymRecords(m.syms, m.marks, AliasRecords(m.aliases, GlobalRecords(m.syms, m.globals,
      FuncRecords(NamesOf(m), m.funcs, [Eof])))))
  }

  // --- parsing -------------------------------------------------------------------------------

  // The names of the functions with a body, found at brace depth zero.
  function PrescanFuncs(ts: seq<Tok>, depth: int, found: seq<string>): Labels
    decreases |ts|
  {
    if ts == [] || ts[0].Eof? then Labels(found)
    else if ts[0].LB? then PrescanFuncs(ts[1..], depth + 1, found)
    else if ts[0].RB? then PrescanFuncs(ts[1..], depth - 1, found)
    else if depth == 0 && IsWord(ts[0], "func") && |ts| >= 3 && ts[1].Ident? && ts[2].Symbol? then
      if TokName(ts[2]) in found then BadLabels else PrescanFuncs(ts[1..], depth, found + [TokName(ts[2])])
    else PrescanFuncs(ts[1..], depth, found)
  }

  // What has been read so far.
  datatype Contents = Contents(
    idents: seq<seq<nat>>, syms: seq<string>, marks: seq<SymMarks>, aliases: seq<Alias>, globals: seq<Global>, funcs: seq<ParsedFunc>)

  datatype ParsedModule = BadModule | ParsedModule(contents: Contents)

  // New symbols join without marks.
  function Padded(marks: seq<SymMarks>, n: nat): (r: seq<SymMarks>)
    ensures |r| >= n && |r| >= |marks| && r[..|marks|] == marks
    decreases n - |marks|
  {
    if |marks| >= n then marks else Padded(marks + [UNMARKED], n)
  }

  function WithSyms(c: Contents, syms: seq<string>): Contents {
    c.(syms := syms, marks := Padded(c.marks, |syms|))
  }

  // A mark once set stays; the thread-local model is the last one said.
  function Merged(old_: SymMarks, k: SymMarks): SymMarks {
    SymMarks(old_.weak || k.weak, if k.visibility != 0 then k.visibility else old_.visibility, k.initialExec,
             old_.returnsTwice || k.returnsTwice)
  }

  function MarkSym(c: Contents, name: string, k: SymMarks): Contents {
    var s, c' := Probing.Find(c.syms, name), WithSyms(c, Probing.Inserted(c.syms, name));
    c'.(marks := c'.marks[s := Merged(c'.marks[s], k)])
  }

  function ParseRecords(ids: map<string, nat>, c: Contents, ts: seq<Tok>): ParsedModule
    decreases |ts|
  {
    if ts == [] || ts[0].Eof? then ParsedModule(c)
    else if IsWord(ts[0], "ident") then
      if |ts| < 2 || !ts[1].Str? then BadModule else ParseRecords(ids, c.(idents := c.idents + [ts[1].bytes]), ts[2..])
    else if IsWord(ts[0], "sym") then
      if |ts| < 2 || !ts[1].Symbol? then BadModule
      else
        match TakeSymMarks(ts[2..])
        case NoClause => BadModule
        case Clause(k, rest) => if |rest| >= |ts| then BadModule else ParseRecords(ids, MarkSym(c, TokName(ts[1]), k), rest)
    else if IsWord(ts[0], "alias") then
      match TakeAlias(ts[1..])
      case NoClause => BadModule
      case Clause(a, rest) =>
        if |rest| >= |ts| then BadModule
        else ParseRecords(ids, WithSyms(c, Probing.Inserted(c.syms, a.name)).(aliases := c.aliases + [a]), rest)
    else if IsWord(ts[0], "global") then
      match TakeGlobal(c.syms, ts[1..])
      case BadGlobal => BadModule
      case GlobalResult(g, syms, rest) =>
        if |rest| >= |ts| then BadModule else ParseRecords(ids, WithSyms(c, syms).(globals := c.globals + [g]), rest)
    else if IsWord(ts[0], "func") then
      match ParseFunc(ids, c.syms, ts[1..])
      case BadFunc => BadModule
      case FuncResult(f, syms, rest) =>
        if |rest| >= |ts| then BadModule else ParseRecords(ids, WithSyms(c, syms).(funcs := c.funcs + [f]), rest)
    else BadModule
  }

  function ParseModule(ts: seq<Tok>): ParsedModule {
    match PrescanFuncs(ts, 0, [])
    case BadLabels => BadModule
    case Labels(names) => ParseRecords(Numbered(names), Contents([], [], [], [], [], []), ts)
  }
}
