/** Reading back printed lists: call arguments, branch arguments, edges, cases. */
module IrTripLists {
  import opened Shared
  import opened Ir
  import opened IrTokens
  import opened IrPrint
  import opened IrParse
  import opened IrTripOperands

  // --- counting the items of a list before parsing it -----------------------------------------

  lemma AtomCount(m: ModuleNames, f: Func, o: Operand, rest: seq<Tok>, d: nat, k: nat)
    ensures CountFrom(Atom(m, f, o, rest), d, k) == CountFrom(rest, d, k)
  {
    var ts := Atom(m, f, o, rest);
    if o.kind == OpFconst && o.ty != TYPE_F32 && o.ty != TYPE_F64 {
      assert CountFrom(ts, d, k) == CountFrom(ts[1..], d, k);
      assert CountFrom(ts[1..], d, k) == CountFrom(ts[1..][1..], d, k);
      assert ts[1..][1..][1..] == rest;
    } else if o.kind == OpSymbol && o.a != 0 {
      assert ts[1..][1..] == rest;
    } else {
      assert ts[1..] == rest;
    }
  }

  lemma TypedCount(m: ModuleNames, f: Func, o: Operand, rest: seq<Tok>, d: nat, k: nat)
    ensures CountFrom(Typed(m, f, o, rest), d, k) == CountFrom(rest, d, k)
  {
    hide Atom;
    AtomCount(m, f, o, rest, d, k);
    assert Typed(m, f, o, rest)[1..] == Atom(m, f, o, rest);
  }

  lemma WordCount(on: bool, word: string, rest: seq<Tok>, d: nat, k: nat)
    ensures CountFrom(Word(on, word, rest), d, k) == CountFrom(rest, d, k)
  {
    assert on ==> Word(on, word, rest)[1..] == rest;
  }

  // A parenthesised annotation, comma and all.
  lemma ParenCount(word: string, inside: seq<Tok>, rest: seq<Tok>, d: nat, k: nat)
    requires inside == [] || |inside| == 1 || |inside| == 3
    requires forall t | t in inside :: t.IntTok? || t.Comma?
    ensures CountFrom([Ident(word), LP] + inside + [RP] + rest, d, k) == CountFrom(rest, d, k)
  {
    var after := inside + [RP] + rest;
    var ts := [Ident(word), LP] + inside + [RP] + rest;
    assert ts[1..][1..] == after;
    InsideCount(inside, rest, d, k);
  }

  lemma {:induction false} InsideCount(inside: seq<Tok>, rest: seq<Tok>, d: nat, k: nat)
    requires forall t | t in inside :: t.IntTok? || t.Comma?
    ensures CountFrom(inside + [RP] + rest, d + 1, k) == CountFrom(rest, d, k)
    decreases |inside|
  {
    var ts := inside + [RP] + rest;
    if inside == [] {
      assert ts[1..] == rest;
    } else {
      assert inside[0] in inside;
      InsideCount(inside[1..], rest, d, k);
      assert ts[1..] == inside[1..] + [RP] + rest;
    }
  }

  lemma KindCount(b: nat, rest: seq<Tok>, d: nat, k: nat)
    ensures CountFrom(KindToks(b, rest), d, k) == CountFrom(rest, d, k)
  {
    hide CountFrom, KindName, ArgKind, ArgSize, ArgLeaves;
    var kind := ArgKind(b);
    if kind == KIND_HFA {
      ParenCount("hfa", [IntTok(ArgSize(b)), Comma, IntTok(ArgLeaves(b))], rest, d, k);
      assert KindToks(b, rest) == [Ident("hfa"), LP] + [IntTok(ArgSize(b)), Comma, IntTok(ArgLeaves(b))] + [RP] + rest;
    } else if kind != 0 {
      ParenCount(KindName(kind), [IntTok(ArgSize(b))], rest, d, k);
      assert KindToks(b, rest) == [Ident(KindName(kind)), LP] + [IntTok(ArgSize(b))] + [RP] + rest;
    }
  }

  lemma AlignCount(b: nat, rest: seq<Tok>, d: nat, k: nat)
    ensures CountFrom(AlignToks(b, rest), d, k) == CountFrom(rest, d, k)
  {
    hide CountFrom, StackAlign;
    var align := StackAlign(b);
    if align == 16 {
      WordCount(true, "stackalign16", rest, d, k);
    } else if align != 0 {
      ParenCount("stackalign", [IntTok(align)], rest, d, k);
      assert AlignToks(b, rest) == [Ident("stackalign"), LP] + [IntTok(align)] + [RP] + rest;
    }
  }

  lemma CallArgCount(m: ModuleNames, f: Func, o: Operand, rest: seq<Tok>, d: nat, k: nat)
    ensures CountFrom(CallArg(m, f, o, rest), d, k) == CountFrom(rest, d, k)
  {
    hide CountFrom, Typed, Word, AlignToks, KindToks, Has, EvenGpr;
    var b := Annotation(o);
    TypedCount(m, f, o, ArgMarks(o, rest), d, k);
    KindCount(b, TailAnon(o, rest), d, k);
    WordCount(Has(o.argflags, ARG_ANON), "anon", TailSext(o, rest), d, k);
    WordCount(Has(o.argflags, ARG_SEXT), "sext", TailZext(o, rest), d, k);
    WordCount(Has(o.argflags, ARG_ZEXT), "zext", TailOnstack(o, rest), d, k);
    WordCount(Has(o.argflags, ARG_ONSTACK), "onstack", TailAlign(o, rest), d, k);
    AlignCount(b, TailEven(o, rest), d, k);
    WordCount(EvenGpr(b), "even", rest, d, k);
  }

  // --- lists of either kind ---------------------------------------------------------------------------

  function Item(m: ModuleNames, f: Func, o: Operand, call: bool, rest: seq<Tok>): seq<Tok> {
    if call then CallArg(m, f, o, rest) else Typed(m, f, o, rest)
  }

  function Items(m: ModuleNames, f: Func, os: seq<Operand>, call: bool, rest: seq<Tok>): seq<Tok> {
    if call then CallArgs(m, f, os, rest) else TypedList(m, f, os, rest)
  }

  lemma ItemsUnfold(m: ModuleNames, f: Func, os: seq<Operand>, call: bool, rest: seq<Tok>)
    ensures os == [] ==> Items(m, f, os, call, rest) == [RP] + rest
    ensures |os| == 1 ==> Items(m, f, os, call, rest) == Item(m, f, os[0], call, [RP] + rest)
    ensures |os| > 1 ==> Items(m, f, os, call, rest) == Item(m, f, os[0], call, [Comma] + Items(m, f, os[1..], call, rest))
  {
  }

  lemma ItemCount(m: ModuleNames, f: Func, o: Operand, call: bool, rest: seq<Tok>, k: nat)
    ensures CountFrom(Item(m, f, o, call, rest), 0, k) == CountFrom(rest, 0, k)
  {
    if call {
      CallArgCount(m, f, o, rest, 0, k);
    } else {
      TypedCount(m, f, o, rest, 0, k);
    }
  }

  lemma {:induction false} ItemsCount(m: ModuleNames, f: Func, os: seq<Operand>, call: bool, rest: seq<Tok>, k: nat)
    requires os != []
    ensures CountFrom(Items(m, f, os, call, rest), 0, k) == k + |os| - 1
    decreases |os|
  {
    hide Items, Item;
    ItemsUnfold(m, f, os, call, rest);
    if |os| == 1 {
      ItemCount(m, f, os[0], call, [RP] + rest, k);
    } else {
      var more := [Comma] + Items(m, f, os[1..], call, rest);
      ItemCount(m, f, os[0], call, more, k);
      assert more[1..] == Items(m, f, os[1..], call, rest);
      ItemsCount(m, f, os[1..], call, rest, k + 1);
    }
  }

  lemma ArgsCounted(m: ModuleNames, f: Func, os: seq<Operand>, call: bool, rest: seq<Tok>)
    ensures CountArgs(Items(m, f, os, call, rest)) == |os|
  {
    if os == [] {
    } else {
      ItemsCount(m, f, os, call, rest, 1);
      ItemsUnfold(m, f, os, call, rest);
      assert !Front(Items(m, f, os, call, rest)).RP?;
    }
  }

  predicate ItemOk(m: ModuleNames, f: Func, o: Operand, call: bool) {
    if call then ArgOk(m, f, o) else AtomOk(m, f, o, o.ty) && o.ty <= TYPE_VOID && Bare(o)
  }

  predicate ItemsOk(m: ModuleNames, f: Func, os: seq<Operand>, call: bool) {
    forall i | 0 <= i < |os| :: ItemOk(m, f, os[i], call)
  }

  predicate AllStand(ss: seq<Slot>, os: seq<Operand>, n: nat) {
    |ss| == |os| && forall i | 0 <= i < |os| :: Stands(ss[i], os[i], n)
  }

  lemma ItemBack(m: ModuleNames, f: Func, n: nat, st: State, o: Operand, call: bool, rest: seq<Tok>)
    requires Canonical(f) && Distinct(m.syms) && Defined(m, f, n, st) && ItemOk(m, f, o, call) && EndsArg(rest)
    ensures var p := if call then ParseCallArg(st, Item(m, f, o, call, rest)) else ParseTyped(st, Item(m, f, o, call, rest));
            p.Parsed? && p.st == st && p.rest == rest && Stands(p.value, o, n)
  {
    hide Canonical, ParseCallArg, ParseTyped, CallArg, Typed, Stands, AtomOk, ArgOk;
    if call {
      CallArgBack(m, f, n, st, o, rest);
    } else {
      TypedBack(m, f, n, st, o, rest);
      BareUnmarked(m, f, o, o.ty);
    }
  }

  lemma {:induction false} ItemsBack(m: ModuleNames, f: Func, n: nat, st: State, os: seq<Operand>, call: bool, first: bool, rest: seq<Tok>)
    requires Canonical(f) && Distinct(m.syms) && Defined(m, f, n, st) && ItemsOk(m, f, os, call) && os != []
    ensures var ts := if first then Items(m, f, os, call, rest) else [Comma] + Items(m, f, os, call, rest);
            var p := ParseItems(st, ts, |os|, first, call);
            p.Parsed? && p.st == st && p.rest == rest && AllStand(p.value, os, n)
    decreases |os|
  {
    hide Canonical, Defined, Items, Item, ItemOk, ParseCallArg, ParseTyped, EndsArg, AllStand, ItemsOk;
    hide Stands;
    FirstItemOk(m, f, os, call);
    EndsArgs(m, f, os, call, rest);
    var at := Items(m, f, os, call, rest);
    var ts := if first then at else [Comma] + at;
    assert !first ==> ts[1..] == at;
    ItemsUnfold(m, f, os, call, rest);
    var after := if |os| == 1 then [RP] + rest else [Comma] + Items(m, f, os[1..], call, rest);
    ItemBack(m, f, n, st, os[0], call, after);
    if |os| == 1 {
      assert after[1..] == rest;
      assert ParseItems(st, after, 0, false, call) == Parsed([], st, rest);
      StandsMore(if call then ParseCallArg(st, at).value else ParseTyped(st, at).value, [], os, n);
    } else {
      ItemsBack(m, f, n, st, os[1..], call, false, rest);
      StandsMore(if call then ParseCallArg(st, at).value else ParseTyped(st, at).value,
                 ParseItems(st, after, |os| - 1, false, call).value, os, n);
    }
  }

  lemma FirstItemOk(m: ModuleNames, f: Func, os: seq<Operand>, call: bool)
    requires ItemsOk(m, f, os, call) && os != []
    ensures ItemOk(m, f, os[0], call) && ItemsOk(m, f, os[1..], call)
  {
    hide ItemOk;
  }

  lemma StandsMore(s: Slot, more: seq<Slot>, os: seq<Operand>, n: nat)
    requires os != [] && Stands(s, os[0], n) && if |os| == 1 then more == [] else AllStand(more, os[1..], n)
    ensures AllStand([s] + more, os, n)
  {
    hide Stands;
  }

  lemma EndsArgs(m: ModuleNames, f: Func, os: seq<Operand>, call: bool, rest: seq<Tok>)
    ensures EndsArg([RP] + rest) && EndsArg([Comma] + Items(m, f, if os == [] then os else os[1..], call, rest))
  {
    hide Items;
  }

  lemma ArgsBack(m: ModuleNames, f: Func, n: nat, st: State, os: seq<Operand>, call: bool, rest: seq<Tok>)
    requires Canonical(f) && Distinct(m.syms) && Defined(m, f, n, st) && ItemsOk(m, f, os, call)
    ensures var ts := Items(m, f, os, call, rest);
            && CountArgs(ts) == |os|
            && var p := ParseItems(st, ts, |os|, true, call);
               p.Parsed? && p.st == st && p.rest == rest && AllStand(p.value, os, n)
  {
    hide Canonical, Defined, ItemOk, Stands, CountArgs;
    ArgsCounted(m, f, os, call, rest);
    if os != [] {
      ItemsBack(m, f, n, st, os, call, true, rest);
    } else {
      ItemsUnfold(m, f, os, call, rest);
      assert ([RP] + rest)[1..] == rest;
    }
  }

  // --- edges ---------------------------------------------------------------------------------------------

  // The scan ahead found the blocks in layout order.
  predicate BlocksKnown(k: Known, f: Func) {
    forall b | 0 <= b < |f.blocks| :: f.blocks[b].name in k.blocks && k.blocks[f.blocks[b].name] == b + 1
  }

  // A signed 64-bit number.
  predicate CaseValueOk(v: int) {
    -0x8000_0000_0000_0000 <= v < 0x8000_0000_0000_0000
  }

  predicate EdgeOk(m: ModuleNames, f: Func, e: Edge) {
    0 < e.target <= |f.blocks| && ItemsOk(m, f, e.args, false) && CaseValueOk(e.caseVal)
  }

  predicate EdgeStands(s: SlotEdge, e: Edge, n: nat) {
    s.target == e.target && s.caseVal == e.caseVal && AllStand(s.args, e.args, n)
  }

  lemma EdgeBack(m: ModuleNames, f: Func, k: Known, n: nat, st: State, e: Edge, rest: seq<Tok>)
    requires Canonical(f) && Distinct(m.syms) && Defined(m, f, n, st) && BlocksKnown(k, f) && EdgeOk(m, f, e)
    ensures var p := ParseEdge(k, st, EdgeToks(m, f, e, rest), e.caseVal);
            p.Parsed? && p.st == st && p.rest == rest && EdgeStands(p.value, e, n)
  {
    hide Canonical, Defined, ItemsOk, AllStand, ParseItems, CountArgs, TypedList;
    ArgsBack(m, f, n, st, e.args, false, rest);
    assert EdgeToks(m, f, e, rest)[2..] == TypedList(m, f, e.args, rest);
  }

  lemma SignedOfBits(v: int)
    requires CaseValueOk(v)
    ensures Signed(Bits(v)) == v
  {
  }

  predicate EdgesOk(m: ModuleNames, f: Func, es: seq<Edge>) {
    forall i | 0 <= i < |es| :: EdgeOk(m, f, es[i])
  }

  predicate EdgesStand(ss: seq<SlotEdge>, es: seq<Edge>, n: nat) {
    |ss| == |es| && forall i | 0 <= i < |es| :: EdgeStands(ss[i], es[i], n)
  }

  lemma {:induction false} EdgeShorter(m: ModuleNames, f: Func, e: Edge, rest: seq<Tok>)
    ensures |EdgeToks(m, f, e, rest)| > |rest|
  {
    ListLonger(m, f, e.args, rest);
  }

  lemma {:induction false} ListLonger(m: ModuleNames, f: Func, os: seq<Operand>, rest: seq<Tok>)
    ensures |TypedList(m, f, os, rest)| > |rest|
    decreases |os|
  {
    if |os| > 1 {
      ListLonger(m, f, os[1..], rest);
    }
  }

  // The cases of a switch, as long as a comma and a number follow.
  lemma {:induction false} CasesBack(m: ModuleNames, f: Func, k: Known, n: nat, st: State, es: seq<Edge>, rest: seq<Tok>)
    requires Canonical(f) && Distinct(m.syms) && Defined(m, f, n, st) && BlocksKnown(k, f) && EdgesOk(m, f, es)
    requires !Front(rest).Comma? || !Second(rest).IntTok?
    ensures var p := ParseCases(k, st, Cases(m, f, es, rest));
            p.Parsed? && p.st == st && p.rest == rest && EdgesStand(p.value, es, n)
    decreases |es|
  {
    hide Canonical, Defined, BlocksKnown, EdgeOk, EdgeStands, ParseEdge, EdgeToks;
    if es != [] {
      var more := Cases(m, f, es[1..], rest);
      var ts := Cases(m, f, es, rest);
      assert ts[3..] == EdgeToks(m, f, es[0], more);
      CaseInRange(m, f, es[0]);
      EdgeBack(m, f, k, n, st, es[0], more);
      CasesBack(m, f, k, n, st, es[1..], rest);
      EdgeShorter(m, f, es[0], more);
    }
  }

  lemma CaseInRange(m: ModuleNames, f: Func, e: Edge)
    requires EdgeOk(m, f, e)
    ensures Signed(Bits(e.caseVal)) == e.caseVal
  {
    SignedOfBits(e.caseVal);
  }
}
