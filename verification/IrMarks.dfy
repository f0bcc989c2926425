/** What the textual IR says beside instructions: marks on parameters, functions
    and symbols, and the records of aliases and globals. Each piece is given as
    the printer writes it and as the parser reads it. */
module IrMarks {
  import opened Shared
  import opened IrTokens
  import opened Probing
  import IrLex

  // --- what is said ------------------------------------------------------------------------

  // A parameter's annotation word, as its fields.
  datatype ParamMark = ParamMark(byval: Option<nat>, onstack: bool, align: nat, even: bool, restricted: bool)

  const PLAIN := ParamMark(None, false, 0, false, false)

  // A constructor's or destructor's priority is 65535 when none is written.
  datatype FuncMarks = FuncMarks(
    unproto: bool, internal: bool, weak: bool, visibility: nat, align: nat, used: bool, alwaysInline: bool, inlineOnly: bool,
    returnsTwice: bool, section: Option<seq<nat>>, ctor: Option<nat>, dtor: Option<nat>, abi: nat, leaves: nat, setjmp: bool,
    contract: bool)

  // initialExec is the one thread-local model that an external symbol can have.
  datatype SymMarks = SymMarks(weak: bool, visibility: nat, initialExec: bool, returnsTwice: bool)

  const UNMARKED := SymMarks(false, 0, false, false)

  // Linkage is internal, external or common.
  datatype Alias = Alias(name: string, target: string, linkage: nat, weak: bool, visibility: nat)

  datatype Reloc = Reloc(offset: nat, symbol: nat, addend: nat)

  datatype Global = Global(
    name: string, size: nat, align: nat, linkage: nat, tentative: bool, tls: bool, weak: bool, used: bool, constant: bool,
    section: Option<seq<nat>>, visibility: nat, init: Option<seq<nat>>, relocs: seq<Reloc>)

  const DEFAULT_PRIORITY: nat := 65535
  const ABI_HFA: nat := 6
  const U32: nat := 0x1_0000_0000

  // --- names ----------------------------------------------------------------------------------

  const VISIBILITIES: seq<string> := ["", "default", "hidden", "protected", "internal"]
  const LINKAGES: seq<string> := ["internal", "external", "common"]
  const ABI_RETURNS: seq<string> :=
    ["none", "sret", "pair_ii", "pair_is", "pair_si", "pair_ss", "hfa_f32", "hfa_f64", "hfa_f128"]

  function At(names: seq<string>, i: nat): string {
    if i < |names| then names[i] else "?"
  }

  // --- one word with something in parentheses ---------------------------------------------------

  function InParens(word: string, inner: seq<Tok>, rest: seq<Tok>): seq<Tok> {
    [Ident(word), LP] + inner + [RP] + rest
  }

  function VisibilityToks(v: nat, rest: seq<Tok>): seq<Tok> {
    if v == 0 then rest else InParens("visibility", [Ident(At(VISIBILITIES, v))], rest)
  }

  function TakeVisibility(ts: seq<Tok>): Clause<nat> {
    if !IsWord(Front(ts), "visibility") then Clause(0, ts)
    else if |ts| < 4 || !ts[1].LP? || !ts[2].Ident? || !ts[3].RP? then NoClause
    else
      var v := Find(VISIBILITIES, ts[2].text);
      if 0 < v < |VISIBILITIES| then Clause(v, ts[4..]) else NoClause
  }

  function FuncAlignToks(align: nat, rest: seq<Tok>): seq<Tok> {
    if align == 0 then rest else InParens("align", [IntTok(align)], rest)
  }

  function TakeFuncAlign(ts: seq<Tok>): Clause<nat> {
    if !IsWord(Front(ts), "align") then Clause(0, ts)
    else if |ts| < 4 || !ts[1].LP? || !ts[2].IntTok? || !ts[3].RP? then NoClause
    else Clause(ts[2].value % U32, ts[4..])
  }

  function SectionToks(section: Option<seq<nat>>, rest: seq<Tok>): seq<Tok> {
    match section
    case None => rest
    case Some(bytes) => InParens("section", [Str(bytes)], rest)
  }

  function TakeSection(ts: seq<Tok>): Clause<Option<seq<nat>>> {
    if !IsWord(Front(ts), "section") then Clause(None, ts)
    else if |ts| < 4 || !ts[1].LP? || !ts[2].Str? || !ts[3].RP? then NoClause
    else Clause(Some(ts[2].bytes), ts[4..])
  }

  // The usual priority is not written.
  function StartToks(word: string, start: Option<nat>, rest: seq<Tok>): seq<Tok> {
    match start
    case None => rest
    case Some(n) => if n == DEFAULT_PRIORITY then [Ident(word)] + rest else InParens(word, [IntTok(n)], rest)
  }

  function TakeStart(word: string, ts: seq<Tok>): Clause<Option<nat>> {
    if !IsWord(Front(ts), word) then Clause(None, ts)
    else if !Second(ts).LP? then Clause(Some(DEFAULT_PRIORITY), ts[1..])
    else if |ts| < 4 || !ts[2].IntTok? || !ts[3].RP? || ts[2].value > DEFAULT_PRIORITY then NoClause
    else Clause(Some(ts[2].value), ts[4..])
  }

  // A homogeneous aggregate says how many leaves it has.
  function AbiToks(abi: nat, leaves: nat, rest: seq<Tok>): seq<Tok> {
    if abi == 0 then rest
    else InParens("abi", if abi >= ABI_HFA then [Ident(At(ABI_RETURNS, abi)), Comma, IntTok(leaves)] else [Ident(At(ABI_RETURNS, abi))], rest)
  }

  // Out of range for an unknown name.
  function AbiOf(t: Tok): nat {
    if t.Ident? then Find(ABI_RETURNS, t.text) else 0
  }

  function TakeAbi(ts: seq<Tok>): Clause<(nat, nat)> {
    if !IsWord(Front(ts), "abi") then Clause((0, 0), ts)
    else if |ts| < 4 || !ts[1].LP? || !ts[2].Ident? then NoClause
    else TakeAbiName(AbiOf(ts[2]), ts)
  }

  function TakeAbiName(abi: nat, ts: seq<Tok>): Clause<(nat, nat)>
    requires |ts| >= 4
  {
    if abi == 0 || abi >= 9 then NoClause
    else if abi < ABI_HFA then if ts[3].RP? then Clause((abi, 0), ts[4..]) else NoClause
    else if |ts| < 6 || !ts[3].Comma? || !ts[4].IntTok? || !ts[5].RP? then NoClause
    else Clause((abi, ts[4].value % 256), ts[6..])
  }

  // --- parameters -----------------------------------------------------------------------------------

  function ByvalToks(byval: Option<nat>, rest: seq<Tok>): seq<Tok> {
    match byval
    case None => rest
    case Some(size) => InParens("byval", [IntTok(size)], rest)
  }

  function StackAlignToks(align: nat, rest: seq<Tok>): seq<Tok> {
    if align == 0 then rest
    else if align == 16 then [Ident("stackalign16")] + rest
    else InParens("stackalign", [IntTok(align)], rest)
  }

  function ParamMarkToks(p: ParamMark, rest: seq<Tok>): seq<Tok> {
    ByvalToks(p.byval, Word(p.onstack, "onstack",
      StackAlignToks(p.align, Word(p.even, "even", Word(p.restricted, "restrict", rest)))))
  }

  function TakeByval(ts: seq<Tok>): Clause<Option<nat>> {
    if !IsWord(Front(ts), "byval") then Clause(None, ts)
    else if |ts| < 4 || !ts[1].LP? || !ts[2].IntTok? || !ts[3].RP? then NoClause
    else Clause(Some(ts[2].value % U32), ts[4..])
  }

  function TakeStackAlign(ts: seq<Tok>): Clause<nat> {
    if IsWord(Front(ts), "stackalign16") then Clause(16, ts[1..])
    else if !IsWord(Front(ts), "stackalign") then Clause(0, ts)
    else if |ts| < 4 || !ts[1].LP? || !ts[2].IntTok? || !ts[3].RP? then NoClause
    else if ts[2].value < 8 || ts[2].value % 8 != 0 || ts[2].value > 0x100_0000 then NoClause
    else Clause(ts[2].value, ts[4..])
  }

  function TakeParamMark(ts: seq<Tok>): Clause<ParamMark> {
    match TakeByval(ts)
    case NoClause => NoClause
    case Clause(byval, ts1) =>
      var onstack := TakeWord(ts1, "onstack");
      match TakeStackAlign(onstack.1)
      case NoClause => NoClause
      case Clause(align, ts2) =>
        var even := TakeWord(ts2, "even");
        var restricted := TakeWord(even.1, "restrict");
        Clause(ParamMark(byval, onstack.0, align, even.0, restricted.0), restricted.1)
  }

  // --- functions ---------------------------------------------------------------------------------------

  function EndMarkToks(k: FuncMarks, rest: seq<Tok>): seq<Tok> {
    StartToks("constructor", k.ctor, StartToks("destructor", k.dtor,
      AbiToks(k.abi, k.leaves, Word(k.setjmp, "setjmp", Word(k.contract, "contract", rest)))))
  }

  function MiddleMarkToks(k: FuncMarks, rest: seq<Tok>): seq<Tok> {
    Word(k.used, "used", Word(k.alwaysInline, "always_inline", Word(k.inlineOnly, "inline_only",
      Word(k.returnsTwice, "returns_twice", SectionToks(k.section, EndMarkToks(k, rest))))))
  }

  function FuncMarkToks(k: FuncMarks, rest: seq<Tok>): seq<Tok> {
    Word(k.unproto, "unproto", Word(k.internal, "internal", Word(k.weak, "weak",
      VisibilityToks(k.visibility, FuncAlignToks(k.align, MiddleMarkToks(k, rest))))))
  }

  const NO_MARKS :=
    FuncMarks(false, false, false, 0, 0, false, false, false, false, None, None, None, 0, 0, false, false)

  // The marks so far, and those that end the list.
  function TakeEndMarks(k: FuncMarks, ts: seq<Tok>): Clause<FuncMarks> {
    match TakeStart("constructor", ts)
    case NoClause => NoClause
    case Clause(ctor, ts1) =>
      match TakeStart("destructor", ts1)
      case NoClause => NoClause
      case Clause(dtor, ts2) =>
        match TakeAbi(ts2)
        case NoClause => NoClause
        case Clause(abi, ts3) =>
          var setjmp := TakeWord(ts3, "setjmp");
          var contract := TakeWord(setjmp.1, "contract");
          Clause(k.(ctor := ctor, dtor := dtor, abi := abi.0, leaves := abi.1, setjmp := setjmp.0, contract := contract.0), contract.1)
  }

  function TakeMiddleMarks(k: FuncMarks, ts: seq<Tok>): Clause<FuncMarks> {
    var used := TakeWord(ts, "used");
    var always := TakeWord(used.1, "always_inline");
    var only := TakeWord(always.1, "inline_only");
    var twice := TakeWord(only.1, "returns_twice");
    match TakeSection(twice.1)
    case NoClause => NoClause
    case Clause(section, rest) =>
      TakeEndMarks(k.(used := used.0, alwaysInline := always.0, inlineOnly := only.0, returnsTwice := twice.0, section := section), rest)
  }

  function TakeFuncMarks(ts: seq<Tok>): Clause<FuncMarks> {
    var unproto := TakeWord(ts, "unproto");
    var internal := TakeWord(unproto.1, "internal");
    var weak := TakeWord(internal.1, "weak");
    match TakeVisibility(weak.1)
    case NoClause => NoClause
    case Clause(visibility, ts1) =>
      match TakeFuncAlign(ts1)
      case NoClause => NoClause
      case Clause(align, ts2) =>
        TakeMiddleMarks(NO_MARKS.(unproto := unproto.0, internal := internal.0, weak := weak.0, visibility := visibility, align := align), ts2)
  }

  // --- symbols -----------------------------------------------------------------------------------------

  function SymMarkToks(k: SymMarks, rest: seq<Tok>): seq<Tok> {
    Word(k.weak, "weak", VisibilityToks(k.visibility,
      if k.initialExec then InParens("tls", [Ident("initial_exec")], Word(k.returnsTwice, "returns_twice", rest))
      else Word(k.returnsTwice, "returns_twice", rest)))
  }

  function TakeTls(ts: seq<Tok>): Clause<bool> {
    if !IsWord(Front(ts), "tls") then Clause(false, ts)
    else if |ts| < 4 || !ts[1].LP? || !IsWord(ts[2], "initial_exec") || !ts[3].RP? then NoClause
    else Clause(true, ts[4..])
  }

  function TakeSymMarks(ts: seq<Tok>): Clause<SymMarks> {
    var weak := TakeWord(ts, "weak");
    match TakeVisibility(weak.1)
    case NoClause => NoClause
    case Clause(visibility, ts1) =>
      match TakeTls(ts1)
      case NoClause => NoClause
      case Clause(tls, ts2) =>
        var twice := TakeWord(ts2, "returns_twice");
        Clause(SymMarks(weak.0, visibility, tls, twice.0), twice.1)
  }

  // --- aliases -----------------------------------------------------------------------------------------

  function AliasToks(a: Alias, rest: seq<Tok>): seq<Tok> {
    [SymTok(a.name), Eq, SymTok(a.target), Ident(At(LINKAGES, a.linkage))] + Word(a.weak, "weak", VisibilityToks(a.visibility, rest))
  }

  function LinkageOf(t: Tok): nat {
    if t.Ident? then Find(LINKAGES, t.text) else |LINKAGES|
  }

  function TakeAlias(ts: seq<Tok>): Clause<Alias> {
    if |ts| < 4 || !ts[0].Symbol? || !ts[1].Eq? || !ts[2].Symbol? || LinkageOf(ts[3]) == |LINKAGES| then NoClause
    else
      var weak := TakeWord(ts[4..], "weak");
      match TakeVisibility(weak.1)
      case NoClause => NoClause
      case Clause(v, rest) => Clause(Alias(TokName(ts[0]), TokName(ts[2]), LinkageOf(ts[3]), weak.0, v), rest)
  }

  // --- globals -----------------------------------------------------------------------------------------

  // The image of an initialiser: an x, so that it lexes as one word, and two
  // digits a byte.
  function HexBytes(bytes: seq<nat>): string {
    if bytes == [] then "" else IrLex.HexDigits(bytes[0], 2, false) + HexBytes(bytes[1..])
  }

  function InitToks(init: Option<seq<nat>>, rest: seq<Tok>): seq<Tok> {
    match init
    case None => rest
    case Some(bytes) => [Ident("init"), Ident("x" + HexBytes(bytes))] + rest
  }

  function RelocToks(syms: seq<string>, relocs: seq<Reloc>, rest: seq<Tok>): seq<Tok> {
    if relocs == [] then rest
    else
      [Ident("reloc"), IntTok(relocs[0].offset), SymTok(At(syms, relocs[0].symbol)), IntTok(relocs[0].addend)]
      + RelocToks(syms, relocs[1..], rest)
  }

  function GlobalMarkToks(g: Global, rest: seq<Tok>): seq<Tok> {
    Word(g.tentative, "tentative", Word(g.tls, "tls", Word(g.weak, "weak", Word(g.used, "used", Word(g.constant, "const",
      SectionToks(g.section, VisibilityToks(g.visibility, rest)))))))
  }

  function GlobalToks(syms: seq<string>, g: Global, rest: seq<Tok>): seq<Tok> {
    [SymTok(g.name), Ident("size"), IntTok(g.size), Ident("align"), IntTok(g.align), Ident(At(LINKAGES, g.linkage))]
    + GlobalMarkToks(g, InitToks(g.init, RelocToks(syms, g.relocs, rest)))
  }

  datatype Image = BadImage | Image(bytes: seq<nat>)

  function ReadBytes(hex: string): Image {
    if hex == "" then Image([])
    else if |hex| < 2 || !IrLex.IsHexDigit(hex[0]) || !IrLex.IsHexDigit(hex[1]) then BadImage
    else
      match ReadBytes(hex[2..])
      case BadImage => BadImage
      case Image(rest) => Image([IrLex.HexVal(hex[0]) * 16 + IrLex.HexVal(hex[1])] + rest)
  }

  // As many bytes as the global has.
  function TakeInit(size: nat, ts: seq<Tok>): Clause<Option<seq<nat>>> {
    if !IsWord(Front(ts), "init") then Clause(None, ts)
    else if |ts| < 2 || !ts[1].Ident? || ts[1].text == "" || ts[1].text[0] != 'x' then NoClause
    else
      match ReadBytes(ts[1].text[1..])
      case BadImage => NoClause
      case Image(bytes) => if |bytes| != size then NoClause else Clause(Some(bytes), ts[2..])
  }

  // Symbols not met before join the table.
  datatype Relocs = BadRelocs | Relocs(relocs: seq<Reloc>, syms: seq<string>, rest: seq<Tok>)

  function TakeRelocs(syms: seq<string>, ts: seq<Tok>): Relocs
    decreases |ts|
  {
    if !IsWord(Front(ts), "reloc") then Relocs([], syms, ts)
    else if |ts| < 4 || !ts[1].IntTok? || !ts[2].Symbol? || !ts[3].IntTok? then BadRelocs
    else
      var name := TokName(ts[2]);
      match TakeRelocs(Inserted(syms, name), ts[4..])
      case BadRelocs => BadRelocs
      case Relocs(more, syms', rest) => Relocs([Reloc(ts[1].value, Find(syms, name), ts[3].value)] + more, syms', rest)
  }

  // name, size, alignment and linkage are read; then the marks.
  function TakeGlobalMarks(g: Global, ts: seq<Tok>): Clause<Global> {
    var tentative := TakeWord(ts, "tentative");
    var tls := TakeWord(tentative.1, "tls");
    var weak := TakeWord(tls.1, "weak");
    var used := TakeWord(weak.1, "used");
    var constant := TakeWord(used.1, "const");
    match TakeSection(constant.1)
    case NoClause => NoClause
    case Clause(section, rest) =>
      match TakeVisibility(rest)
      case NoClause => NoClause
      case Clause(v, rest') =>
        Clause(g.(tentative := tentative.0, tls := tls.0, weak := weak.0, used := used.0, constant := constant.0,
                  section := section, visibility := v), rest')
  }

  datatype GlobalResult = BadGlobal | GlobalResult(global: Global, syms: seq<string>, rest: seq<Tok>)

  function TakeGlobal(syms: seq<string>, ts: seq<Tok>): GlobalResult {
    if |ts| < 6 || !ts[0].Symbol? || !IsWord(ts[1], "size") || !ts[2].IntTok? || !IsWord(ts[3], "align") || !ts[4].IntTok? then BadGlobal
    else if ts[4].value >= U32 || LinkageOf(ts[5]) == |LINKAGES| then BadGlobal
    else
      var name, size := TokName(ts[0]), ts[2].value;
      var plain := Global(name, size, ts[4].value, LinkageOf(ts[5]), false, false, false, false, false, None, 0, None, []);
      match TakeGlobalMarks(plain, ts[6..])
      case NoClause => BadGlobal
      case Clause(marked, rest) =>
        match TakeInit(size, rest)
        case NoClause => BadGlobal
        case Clause(init, rest') =>
          match TakeRelocs(Inserted(syms, name), rest')
          case BadRelocs => BadGlobal
          case Relocs(relocs, syms', rest'') => GlobalResult(marked.(init := init, relocs := relocs), syms', rest'')
  }
}
