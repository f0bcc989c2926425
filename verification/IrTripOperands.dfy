/** Reading back printed operands and call arguments. */
module IrTripOperands {
  import opened Shared
  import opened Ir
  import opened IrNames
  import opened IrTokens
  import opened IrPrint
  import opened IrParse
  import opened Probing
  import Renumbering
  import Verifier

  // --- the function being printed -----------------------------------------------------------

  // Numbered in document order, as renumbering leaves it.
  ghost predicate Canonical(f: Func) {
    && |f.vals| == |Renumbering.Defs(f)| < ID_LIMIT
    && forall k | 0 <= k < |f.vals| :: Renumbering.Defs(f)[k] == k + 1
  }

  function NamesTo(n: nat): map<string, nat> {
    if n == 0 then map[] else NamesTo(n - 1)[Decimal(n - 1) := n]
  }

  function TypesTo(f: Func, n: nat): seq<nat>
    requires n <= |f.vals|
  {
    seq(n, i requires 0 <= i < n => f.vals[i].ty)
  }

  // The parser once the first n values are defined.
  ghost predicate Defined(m: ModuleNames, f: Func, n: nat, st: State) {
    n <= |f.vals| && st == State(NamesTo(n), TypesTo(f, n), m.syms)
  }

  lemma {:induction false} NamesMean(n: nat, id: nat)
    requires id > 0
    ensures Decimal(id - 1) in NamesTo(n) <==> id <= n
    ensures id <= n ==> NamesTo(n)[Decimal(id - 1)] == id
  {
    if n > 0 {
      NamesMean(n - 1, id);
      if Decimal(id - 1) == Decimal(n - 1) {
        DecimalInjective(id - 1, n - 1);
      }
    }
  }

  lemma ValTokIs(f: Func, id: nat)
    requires Canonical(f) && 0 < id <= |f.vals|
    ensures ValTok(f, id) == Pident(Decimal(id - 1))
  {
    var defs := Renumbering.Defs(f);
    assert defs[id - 1] == id;
    var n := Renumbering.NewId(defs, id);
    assert n != 0 && defs[n - 1] == n;
  }

  // --- what an operand must be to be printed --------------------------------------------------

  predicate ConstantOk(o: Operand, ty: nat) {
    && o.sym == 0 && o.ty == ty
    && match o.kind
       case OpIconst => !IsVector(ty) && !IsFloat(ty) && o.a < U64 && o.b == 0
       case OpFconst =>
         && IsFloat(ty) && o.a < U64
         && (if ty == TYPE_F80 then o.b < 0x1_0000 else if ty == TYPE_F128 then o.b < U64 else o.b == 0)
         && (ty == TYPE_F32 ==> o.a < 0x1_0000_0000)
       case OpUndef => o.a == 0 && o.b == 0
       case _ => false
  }

  // A value has its definition's type; anything else the type its place calls for.
  predicate AtomOk(m: ModuleNames, f: Func, o: Operand, ty: nat) {
    match o.kind
    case OpValue => 0 < o.a <= |f.vals| && o.sym == 0 && o.ty == f.vals[o.a - 1].ty
    case OpSymbol => o.ty == ty && !IsVector(ty) && o.sym < |m.syms| && o.a < U64
    case OpNone => false
    case _ => ConstantOk(o, ty)
  }

  // No annotation and no flags: any operand but a call argument.
  predicate Bare(o: Operand) {
    o.argflags == 0 && (o.kind == OpValue || o.kind == OpSymbol ==> o.b == 0)
  }

  function Unmarked(o: Operand): Operand {
    o.(argflags := 0, b := if o.kind == OpFconst then o.b else 0)
  }

  predicate Forward(o: Operand, n: nat) {
    o.kind == OpValue && o.a > n
  }

  // The slot stands for the operand: it is the operand, or, for a value not yet
  // defined, waits for it under its printed name and holds its annotation.
  predicate Stands(s: Slot, o: Operand, n: nat) {
    if Forward(o, n) then
      && s.pending.Pending? && s.pending.name == Decimal(o.a - 1) && (s.pending.written == -1 || s.pending.written == o.ty)
      && s.op.kind == OpValue && s.op.b == o.b
    else s == Slot(o, Ready)
  }

  // --- one operand -------------------------------------------------------------------------------

  predicate NoInt(rest: seq<Tok>) {
    !Front(rest).IntTok?
  }

  lemma SymbolFound(syms: seq<string>, i: nat)
    requires Distinct(syms) && i < |syms|
    ensures Find(syms, syms[i]) == i && Inserted(syms, syms[i]) == syms
  {
  }

  lemma SymTokBack(name: string)
    ensures SymTok(name).Symbol? && TokName(SymTok(name)) == name
  {
    if name != "" && name[0] == '!' {
      assert "!" + name[1..] == name;
    }
  }

  lemma AtomBack(m: ModuleNames, f: Func, n: nat, st: State, o: Operand, ty: nat, rest: seq<Tok>)
    requires Canonical(f) && Distinct(m.syms) && Defined(m, f, n, st) && AtomOk(m, f, o, ty) && NoInt(rest)
    ensures var p := ParseAtom(st, ty, Atom(m, f, o, rest));
            p.Parsed? && p.st == st && p.rest == rest && Stands(p.value, Unmarked(o), n)
            && (p.value.pending.Pending? ==> p.value.pending.written == -1 && p.value.op.argflags == 0)
  {
    hide Canonical, NamesTo;
    match o.kind
    case OpValue => ValueBack(m, f, n, st, o, ty, rest);
    case OpSymbol => SymbolBack(m, f, st, o, ty, rest);
    case _ => ConstantBack(m, f, st, o, ty, rest);
  }

  lemma ValueBack(m: ModuleNames, f: Func, n: nat, st: State, o: Operand, ty: nat, rest: seq<Tok>)
    requires Canonical(f) && Defined(m, f, n, st) && AtomOk(m, f, o, ty) && o.kind == OpValue
    ensures var p := ParseAtom(st, ty, Atom(m, f, o, rest));
            p.Parsed? && p.st == st && p.rest == rest && Stands(p.value, Unmarked(o), n)
            && (p.value.pending.Pending? ==> p.value.pending.written == -1 && p.value.op.argflags == 0)
  {
    assert Verifier.UsedId(o) == o.a;
    ValTokIs(f, o.a);
    NamesMean(n, o.a);
  }

  lemma SymbolBack(m: ModuleNames, f: Func, st: State, o: Operand, ty: nat, rest: seq<Tok>)
    requires Distinct(m.syms) && st.syms == m.syms && AtomOk(m, f, o, ty) && o.kind == OpSymbol && NoInt(rest)
    ensures ParseAtom(st, ty, Atom(m, f, o, rest)) == Parsed(Slot(Unmarked(o), Ready), st, rest)
  {
    SymTokBack(m.syms[o.sym]);
    SymbolFound(m.syms, o.sym);
    assert st.(syms := st.syms) == st;
  }

  lemma ConstantBack(m: ModuleNames, f: Func, st: State, o: Operand, ty: nat, rest: seq<Tok>)
    requires AtomOk(m, f, o, ty) && ConstantOk(o, ty)
    ensures ParseAtom(st, ty, Atom(m, f, o, rest)) == Parsed(Slot(Unmarked(o), Ready), st, rest)
  {
  }

  // --- typed operands and comparisons ---------------------------------------------------------------

  lemma TypeTokBack(ty: nat)
    requires ty <= TYPE_VOID
    ensures TypeOfTok(Ident(TypeName(ty))) == ty
  {
    TypeNameBack(ty);
  }

  lemma TypedBack(m: ModuleNames, f: Func, n: nat, st: State, o: Operand, rest: seq<Tok>)
    requires Canonical(f) && Distinct(m.syms) && Defined(m, f, n, st) && AtomOk(m, f, o, o.ty) && o.ty <= TYPE_VOID && NoInt(rest)
    ensures var p := ParseTyped(st, Typed(m, f, o, rest));
            p.Parsed? && p.st == st && p.rest == rest && Stands(p.value, Unmarked(o), n)
            && (p.value.pending.Pending? ==> p.value.op.argflags == 0)
  {
    hide ParseAtom, Atom, Canonical, AtomOk, Stands;
    AtomBack(m, f, n, st, o, o.ty, rest);
    TypeTokBack(o.ty);
  }

  lemma CmpAtomBack(m: ModuleNames, f: Func, n: nat, st: State, o: Operand, rest: seq<Tok>)
    requires Canonical(f) && Distinct(m.syms) && Defined(m, f, n, st) && AtomOk(m, f, o, o.ty) && Bare(o) && NoInt(rest)
    ensures var p := ParseCmpAtom(st, o.ty, Atom(m, f, o, rest));
            p.Parsed? && p.st == st && p.rest == rest && Stands(p.value, o, n)
  {
    hide ParseAtom, Atom, Canonical, AtomOk;
    AtomBack(m, f, n, st, o, o.ty, rest);
    BareUnmarked(m, f, o, o.ty);
  }

  lemma BareUnmarked(m: ModuleNames, f: Func, o: Operand, ty: nat)
    requires AtomOk(m, f, o, ty) && Bare(o)
    ensures Unmarked(o) == o
  {
  }

  // --- call arguments ----------------------------------------------------------------------------------

  // The packed word, put together from its fields.
  function Packed(kind: nat, size: nat, leaves: nat, align: nat, even: bool): nat {
    size + kind * 0x1_0000_0000 + leaves * 0x8_0000_0000 + align / 8 * 0x40_0000_0000 + if even then 0x2000_0000_0000_0000 else 0
  }

  // Nothing but the fields, none without its kind, and an alignment the parser takes.
  predicate AnnotationOk(b: nat) {
    && b == Packed(ArgKind(b), ArgSize(b), ArgLeaves(b), StackAlign(b), EvenGpr(b))
    && (ArgKind(b) == 0 ==> ArgSize(b) == 0)
    && (ArgKind(b) != KIND_HFA ==> ArgLeaves(b) == 0)
    && StackAlign(b) <= 0x100_0000
  }

  predicate ArgOk(m: ModuleNames, f: Func, o: Operand) {
    && AtomOk(m, f, o, o.ty) && o.ty <= TYPE_VOID
    && o.argflags < 16 && !(Has(o.argflags, ARG_SEXT) && Has(o.argflags, ARG_ZEXT))
    && (o.kind == OpValue || o.kind == OpSymbol ==> AnnotationOk(o.b))
  }

  predicate EndsArg(rest: seq<Tok>) {
    Front(rest).Comma? || Front(rest).RP?
  }

  lemma {:induction false} BitOrDisjoint(a: nat, b: nat, k: nat)
    requires a < Power2(k) && b % Power2(k) == 0
    ensures BitOr(a, b) == a + b && BitOr(b, a) == a + b
    decreases k
  {
    if k > 0 && a != 0 && b != 0 {
      HalfMultiple(b, Power2(k - 1));
      BitOrDisjoint(a / 2, b / 2, k - 1);
    }
  }

  function Power2(k: nat): (p: nat)
    ensures p > 0
  {
    if k == 0 then 1 else 2 * Power2(k - 1)
  }

  lemma HalfMultiple(b: nat, p: nat)
    requires p > 0 && b % (2 * p) == 0
    ensures b % 2 == 0 && (b / 2) % p == 0 && b == 2 * (b / 2)
  {
    var q := b / (2 * p);
    assert b == 2 * p * q;
    assert b == 2 * (p * q);
    MultipleMod(p, q);
  }

  lemma {:induction false} MultipleMod(p: nat, q: nat)
    requires p > 0
    ensures (p * q) % p == 0
  {
    ModShift(0, q, p);
  }

  lemma Powers()
    ensures Power2(3) == 8 && Power2(32) == 0x1_0000_0000 && Power2(35) == 0x8_0000_0000
    ensures Power2(38) == 0x40_0000_0000 && Power2(61) == 0x2000_0000_0000_0000
  {
    assert Power2(8) == 256 && Power2(16) == 256 * Power2(8) && Power2(24) == 256 * Power2(16);
    assert Power2(32) == 256 * Power2(24);
    assert Power2(40) == 256 * Power2(32) && Power2(48) == 256 * Power2(40) && Power2(56) == 256 * Power2(48);
  }

  lemma TakeFlagBack(s: Slot, st: State, on: bool, word: string, flag: nat, rest: seq<Tok>)
    requires !IsWord(Front(rest), word)
    ensures TakeFlag(s, st, Word(on, word, rest), word, flag) ==
              Parsed(if on then s.(op := s.op.(argflags := BitOr(s.op.argflags, flag))) else s, st, rest)
  {
    assert !on ==> s.(op := s.op.(argflags := s.op.argflags)) == s;
  }

  // The tokens after each mark: never the one before.
  predicate FrontIn(rest: seq<Tok>, words: seq<string>) {
    EndsArg(rest) || (Front(rest).Ident? && Front(rest).text in words)
  }

  lemma WordFront(on: bool, word: string, rest: seq<Tok>, words: seq<string>)
    requires FrontIn(rest, words)
    ensures FrontIn(Word(on, word, rest), [word] + words)
  {
  }

  const AfterAlign: seq<string> := ["even"]
  const AfterOnstack: seq<string> := ["stackalign16", "stackalign", "even"]
  const AfterZext: seq<string> := ["onstack", "stackalign16", "stackalign", "even"]
  const AfterSext: seq<string> := ["zext", "onstack", "stackalign16", "stackalign", "even"]
  const AfterAnon: seq<string> := ["sext", "zext", "onstack", "stackalign16", "stackalign", "even"]
  const AfterKind: seq<string> := ["anon", "sext", "zext", "onstack", "stackalign16", "stackalign", "even"]

  function TailEven(o: Operand, rest: seq<Tok>): seq<Tok> {
    Word(EvenGpr(Annotation(o)), "even", rest)
  }

  function TailAlign(o: Operand, rest: seq<Tok>): seq<Tok> {
    AlignToks(Annotation(o), TailEven(o, rest))
  }

  function TailOnstack(o: Operand, rest: seq<Tok>): seq<Tok> {
    Word(Has(o.argflags, ARG_ONSTACK), "onstack", TailAlign(o, rest))
  }

  function TailZext(o: Operand, rest: seq<Tok>): seq<Tok> {
    Word(Has(o.argflags, ARG_ZEXT), "zext", TailOnstack(o, rest))
  }

  function TailSext(o: Operand, rest: seq<Tok>): seq<Tok> {
    Word(Has(o.argflags, ARG_SEXT), "sext", TailZext(o, rest))
  }

  function TailAnon(o: Operand, rest: seq<Tok>): seq<Tok> {
    Word(Has(o.argflags, ARG_ANON), "anon", TailSext(o, rest))
  }

  lemma TailFronts(o: Operand, rest: seq<Tok>)
    requires EndsArg(rest)
    ensures FrontIn(TailEven(o, rest), AfterAlign) && FrontIn(TailAlign(o, rest), AfterOnstack)
    ensures FrontIn(TailOnstack(o, rest), AfterZext) && FrontIn(TailZext(o, rest), AfterSext)
    ensures FrontIn(TailSext(o, rest), AfterAnon) && FrontIn(TailAnon(o, rest), AfterKind)
    ensures ArgMarks(o, rest) == KindToks(Annotation(o), TailAnon(o, rest))
  {
    hide FrontIn;
    RestFront(rest);
    WordFront(EvenGpr(Annotation(o)), "even", rest, []);
    assert ["even"] + [] == AfterAlign;
    AlignFront(o, rest);
    WordFront(Has(o.argflags, ARG_ONSTACK), "onstack", TailAlign(o, rest), AfterOnstack);
    WordFront(Has(o.argflags, ARG_ZEXT), "zext", TailOnstack(o, rest), AfterZext);
    WordFront(Has(o.argflags, ARG_SEXT), "sext", TailZext(o, rest), AfterSext);
    WordFront(Has(o.argflags, ARG_ANON), "anon", TailSext(o, rest), AfterAnon);
    assert ["onstack"] + AfterOnstack == AfterZext && ["zext"] + AfterZext == AfterSext;
    assert ["sext"] + AfterSext == AfterAnon && ["anon"] + AfterAnon == AfterKind;
  }

  lemma RestFront(rest: seq<Tok>)
    requires EndsArg(rest)
    ensures FrontIn(rest, [])
  {
  }

  lemma AlignFront(o: Operand, rest: seq<Tok>)
    requires FrontIn(TailEven(o, rest), AfterAlign)
    ensures FrontIn(TailAlign(o, rest), AfterOnstack)
  {
  }

  lemma NotWord(rest: seq<Tok>, words: seq<string>, word: string)
    requires FrontIn(rest, words) && word !in words
    ensures !IsWord(Front(rest), word)
  {
  }

  // The flags, in the printer's order.
  function Flags(anon: bool, sext: bool, zext: bool, onstack: bool): nat {
    FlagIf(anon, ARG_ANON) + FlagIf(sext, ARG_SEXT) + FlagIf(zext, ARG_ZEXT) + FlagIf(onstack, ARG_ONSTACK)
  }

  lemma FlagsSplit(flags: nat)
    requires flags < 16
    ensures flags == Flags(Has(flags, ARG_ANON), Has(flags, ARG_SEXT), Has(flags, ARG_ZEXT), Has(flags, ARG_ONSTACK))
  {
  }

  function WithFlags(s: Slot, flags: nat): Slot {
    s.(op := s.op.(argflags := flags))
  }

  lemma FlagAdds(flags: nat, k: nat, flag: nat)
    requires flags < Power2(k) == flag
    ensures BitOr(flags, flag) == flags + flag
  {
    BitOrDisjoint(flags, flag, k);
  }

  lemma FlagAddsUp(s: Slot, st: State, have: nat, k: nat, on: bool, word: string, flag: nat, rest: seq<Tok>)
    requires have < Power2(k) == flag && !IsWord(Front(rest), word) && s.op.argflags == have
    ensures TakeFlag(s, st, Word(on, word, rest), word, flag) == Parsed(WithFlags(s, have + FlagIf(on, flag)), st, rest)
  {
    TakeFlagBack(s, st, on, word, flag, rest);
    FlagAdds(have, k, flag);
  }

  // Reading the four flags.
  lemma FlagsBack(s: Slot, st: State, o: Operand, rest: seq<Tok>)
    requires EndsArg(rest) && s.op.argflags == 0
    requires o.argflags < 16 && !(Has(o.argflags, ARG_SEXT) && Has(o.argflags, ARG_ZEXT))
    ensures ParseMarks(s, st, TailAnon(o, rest)) == ParseTail(WithFlags(s, o.argflags), st, TailAlign(o, rest))
  {
    hide TakeFlag, Word, FrontIn, ParseAlignMark, ParseEven, IsWord, BitOr, TailAlign, TailEven, Has;
    var anon, sext, zext, onstack :=
      Has(o.argflags, ARG_ANON), Has(o.argflags, ARG_SEXT), Has(o.argflags, ARG_ZEXT), Has(o.argflags, ARG_ONSTACK);
    TailFronts(o, rest);
    Fronts(o, rest);
    assert Power2(0) == 1 && Power2(1) == 2 && Power2(2) == 4 && Power2(3) == 8;
    FlagAddsUp(s, st, 0, 0, anon, "anon", ARG_ANON, TailSext(o, rest));
    var s1, a := WithFlags(s, FlagIf(anon, 1)), FlagIf(anon, 1);
    FlagAddsUp(s1, st, a, 1, sext, "sext", ARG_SEXT, TailZext(o, rest));
    FlagAddsUp(s1, st, a, 2, zext, "zext", ARG_ZEXT, TailOnstack(o, rest));
    var b := a + FlagIf(sext, 2) + FlagIf(zext, 4);
    SextShown(sext, o, rest);
    FlagAddsUp(WithFlags(s, b), st, b, 3, onstack, "onstack", ARG_ONSTACK, TailAlign(o, rest));
    FlagsSplit(o.argflags);
  }

  lemma SextShown(sext: bool, o: Operand, rest: seq<Tok>)
    requires EndsArg(rest) && sext == Has(o.argflags, ARG_SEXT) && !IsWord(Front(TailZext(o, rest)), "sext")
    ensures IsWord(Front(TailSext(o, rest)), "sext") <==> sext
    ensures !sext ==> TailSext(o, rest) == TailZext(o, rest)
    ensures !Has(o.argflags, ARG_ZEXT) ==> TailZext(o, rest) == TailOnstack(o, rest)
  {
  }

  lemma Fronts(o: Operand, rest: seq<Tok>)
    requires FrontIn(TailAlign(o, rest), AfterOnstack)
    requires FrontIn(TailOnstack(o, rest), AfterZext) && FrontIn(TailZext(o, rest), AfterSext) && FrontIn(TailSext(o, rest), AfterAnon)
    ensures !IsWord(Front(TailSext(o, rest)), "anon") && !IsWord(Front(TailZext(o, rest)), "sext")
    ensures !IsWord(Front(TailOnstack(o, rest)), "zext") && !IsWord(Front(TailAlign(o, rest)), "onstack")
  {
    hide FrontIn, IsWord, TailSext, TailZext, TailOnstack, TailAlign;
    NotWord(TailSext(o, rest), AfterAnon, "anon");
    NotWord(TailZext(o, rest), AfterSext, "sext");
    NotWord(TailOnstack(o, rest), AfterZext, "zext");
    NotWord(TailAlign(o, rest), AfterOnstack, "onstack");
  }

  // The end of the marks: the alignment, then the even mark.
  function ParseTail(s: Slot, st: State, ts: seq<Tok>): Parsed<Slot> {
    match ParseAlignMark(s, st, ts)
    case Fail => Fail
    case Parsed(s', _, ts') => ParseEven(s', st, ts')
  }

  function WithB(s: Slot, b: nat): Slot {
    s.(op := s.op.(b := b))
  }

  function EvenBit(b: nat): nat {
    if EvenGpr(b) then 0x2000_0000_0000_0000 else 0
  }

  // What has been read of the annotation before the alignment.
  function KindPart(b: nat): nat {
    ArgSize(b) + ArgKind(b) * 0x1_0000_0000 + ArgLeaves(b) * 0x8_0000_0000
  }

  function AlignPart(b: nat): nat {
    StackAlign(b) / 8 * 0x40_0000_0000
  }

  lemma PartsFit(b: nat)
    ensures KindPart(b) < 0x40_0000_0000 && StackAlign(b) % 8 == 0
    ensures AnnotationOk(b) ==> b == KindPart(b) + AlignPart(b) + EvenBit(b)
    ensures StackAlign(b) <= 0x100_0000 ==> KindPart(b) + AlignPart(b) < 0x2000_0000_0000_0000
  {
  }

  lemma AlignBack(s: Slot, st: State, b: nat, rest: seq<Tok>)
    requires s.op.b == KindPart(b) && StackAlign(b) <= 0x100_0000 && (StackAlign(b) != 0 ==> Annotatable(s))
    requires !IsWord(Front(rest), "stackalign16") && !IsWord(Front(rest), "stackalign")
    ensures ParseAlignMark(s, st, AlignToks(b, rest)) == Parsed(WithB(s, KindPart(b) + AlignPart(b)), st, rest)
  {
    hide ArgKind, ArgSize, ArgLeaves, StackAlign, BitOr, KindPart;
    PartsFit(b);
    Powers();
    MultipleMod(0x40_0000_0000, StackAlign(b) / 8);
    BitOrDisjoint(KindPart(b), AlignPart(b), 38);
    assert WithB(s, s.op.b) == s;
  }

  lemma EvenBack(s: Slot, st: State, b: nat, have: nat, rest: seq<Tok>)
    requires s.op.b == have < 0x2000_0000_0000_0000 && (EvenGpr(b) ==> Annotatable(s)) && EndsArg(rest)
    ensures ParseEven(s, st, Word(EvenGpr(b), "even", rest)) == Parsed(WithB(s, have + EvenBit(b)), st, rest)
  {
    hide BitOr;
    Powers();
    BitOrDisjoint(have, 0x2000_0000_0000_0000, 61);
    assert WithB(s, s.op.b) == s;
  }

  lemma TailBack(s: Slot, st: State, o: Operand, rest: seq<Tok>)
    requires EndsArg(rest) && AnnotationOk(Annotation(o)) && s.op.b == KindPart(Annotation(o)) && Annotatable(s)
    ensures ParseTail(s, st, TailAlign(o, rest)) == Parsed(WithB(s, Annotation(o)), st, rest)
  {
    hide AlignToks, KindPart, AlignPart, EvenBit, Word, ParseAlignMark, ParseEven, EvenGpr, StackAlign, Annotatable;
    var b := Annotation(o);
    PartsFit(b);
    TailFronts(o, rest);
    NotWord(TailEven(o, rest), AfterAlign, "stackalign16");
    NotWord(TailEven(o, rest), AfterAlign, "stackalign");
    AlignFits(b);
    AlignBack(s, st, b, TailEven(o, rest));
    var s' := WithB(s, KindPart(b) + AlignPart(b));
    SameKind(s, KindPart(b) + AlignPart(b));
    EvenBack(s', st, b, KindPart(b) + AlignPart(b), rest);
    assert WithB(s', b) == WithB(s, b);
  }

  lemma AlignFits(b: nat)
    requires AnnotationOk(b)
    ensures StackAlign(b) <= 0x100_0000
  {
  }

  lemma SameKind(s: Slot, b: nat)
    ensures Annotatable(WithB(s, b)) <==> Annotatable(s)
  {
  }

  // A constant has no annotation, so no marks but flags.
  lemma NoTail(s: Slot, st: State, o: Operand, rest: seq<Tok>)
    requires EndsArg(rest) && Annotation(o) == 0
    ensures ParseTail(s, st, TailAlign(o, rest)) == Parsed(s, st, rest)
    ensures KindToks(Annotation(o), TailAnon(o, rest)) == TailAnon(o, rest)
  {
  }

  lemma KindWordBack(kind: nat)
    requires 0 < kind < 8
    ensures KindOf(Ident(KindName(kind))) == kind && (kind == KIND_HFA <==> KindName(kind) == "hfa")
  {
  }

  lemma KindBack(s: Slot, st: State, b: nat, rest: seq<Tok>)
    requires AnnotationOk(b) && s.op.b == 0 && FrontIn(rest, AfterKind)
    ensures ParseKind(s, st, KindToks(b, rest)) == Parsed(WithB(s, KindPart(b)), st, rest)
  {
    hide BitOr, StackAlign, EvenGpr, KindOf, KindName;
    var kind := ArgKind(b);
    if kind == 0 {
      NoKindWord(rest);
      assert WithB(s, s.op.b) == s;
    } else {
      KindWordBack(kind);
      if kind == KIND_HFA {
        LeavesBack(b);
      }
    }
  }

  lemma NoKindWord(rest: seq<Tok>)
    requires FrontIn(rest, AfterKind)
    ensures KindOf(Front(rest)) == 0
  {
  }

  lemma LeavesFit(b: nat)
    ensures ArgLeaves(b) % 0x1_0000_0000 == ArgLeaves(b) < 8 && ArgSize(b) % 0x1_0000_0000 == ArgSize(b) < 0x1_0000_0000
    ensures ArgLeaves(b) * 0x8_0000_0000 % U64 == ArgLeaves(b) * 0x8_0000_0000
  {
  }

  lemma LeavesBack(b: nat)
    requires ArgKind(b) == KIND_HFA
    ensures ArgLeaves(b) % 0x1_0000_0000 == ArgLeaves(b) && ArgSize(b) % 0x1_0000_0000 == ArgSize(b)
    ensures ArgLeaves(b) * 0x8_0000_0000 % U64 == ArgLeaves(b) * 0x8_0000_0000
    ensures BitOr(BitOr(KIND_HFA * 0x1_0000_0000, ArgLeaves(b) * 0x8_0000_0000), ArgSize(b)) == KindPart(b)
  {
    LeavesFit(b);
    hide BitOr, ArgKind, ArgLeaves, ArgSize;
    Powers();
    var top: nat := ArgLeaves(b) * 0x8_0000_0000;
    BitOrDisjoint(KIND_HFA * 0x1_0000_0000, top, 35);
    BitOrDisjoint(ArgSize(b), KIND_HFA * 0x1_0000_0000 + top, 32);
  }

  // A whole argument: the operand with its annotation and flags; only the flags
  // of a value not yet defined are lost.
  lemma CallArgBack(m: ModuleNames, f: Func, n: nat, st: State, o: Operand, rest: seq<Tok>)
    requires Canonical(f) && Distinct(m.syms) && Defined(m, f, n, st) && ArgOk(m, f, o) && EndsArg(rest)
    ensures var p := ParseCallArg(st, CallArg(m, f, o, rest));
            p.Parsed? && p.st == st && p.rest == rest && Stands(p.value, o, n)
  {
    hide Canonical, AtomOk, ParseTyped, Typed, Stands, ArgMarks, ParseKind, ParseMarks, ParseTail, AnnotationOk, TailAnon, TailAlign, KindToks, Defined, KindPart;
    var ts := ArgMarks(o, rest);
    MarksNoInt(o, rest);
    TypedBack(m, f, n, st, o, ts);
    var s := ParseTyped(st, CallArg(m, f, o, rest)).value;
    TailFronts(o, rest);
    StandsFacts(m, f, s, o, n);
    if o.kind == OpValue || o.kind == OpSymbol {
      KindBack(s, st, o.b, TailAnon(o, rest));
      FlagsBack(WithB(s, KindPart(o.b)), st, o, rest);
      TailBack(WithFlags(WithB(s, KindPart(o.b)), o.argflags), st, o, rest);
      StandsMarked(m, f, s, o, n);
    } else {
      NoTail(WithFlags(s, o.argflags), st, o, rest);
      NoKind(s, st, o, rest);
      FlagsBack(s, st, o, rest);
    }
  }

  lemma MarksNoInt(o: Operand, rest: seq<Tok>)
    requires EndsArg(rest)
    ensures NoInt(ArgMarks(o, rest))
  {
    TailFronts(o, rest);
  }

  lemma NoKind(s: Slot, st: State, o: Operand, rest: seq<Tok>)
    requires EndsArg(rest) && Annotation(o) == 0
    ensures ArgMarks(o, rest) == TailAnon(o, rest) && ParseKind(s, st, TailAnon(o, rest)) == Parsed(s, st, TailAnon(o, rest))
  {
    TailFronts(o, rest);
    NoKindWord(TailAnon(o, rest));
  }

  lemma StandsFacts(m: ModuleNames, f: Func, s: Slot, o: Operand, n: nat)
    requires Stands(s, Unmarked(o), n) && AtomOk(m, f, o, o.ty) && (s.pending.Pending? ==> s.op.argflags == 0)
    ensures s.op.argflags == 0 && s.op.kind == o.kind
    ensures o.kind == OpValue || o.kind == OpSymbol ==> s.op.b == 0 && Annotatable(s)
    ensures o.kind != OpValue && o.kind != OpSymbol ==> Annotation(o) == 0 && Stands(WithFlags(s, o.argflags), o, n)
  {
  }

  lemma StandsMarked(m: ModuleNames, f: Func, s: Slot, o: Operand, n: nat)
    requires Stands(s, Unmarked(o), n) && AtomOk(m, f, o, o.ty) && (o.kind == OpValue || o.kind == OpSymbol)
    ensures Stands(WithB(WithFlags(WithB(s, KindPart(o.b)), o.argflags), o.b), o, n)
  {
  }
}
