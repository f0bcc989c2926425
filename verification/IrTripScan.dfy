/** What the scans ahead see in printed text: block labels and function names, and
    nothing that only looks like one. */
module IrTripScan {
  import opened Ir
  import opened IrNames
  import opened IrTokens
  import opened IrPrint
  import opened IrTripOperands
  import opened IrTripLists
  import Verifier

  // --- what follows is only appended ------------------------------------------------------------

  lemma AtomJoin(m: ModuleNames, f: Func, o: Operand, a: seq<Tok>, b: seq<Tok>)
    ensures Atom(m, f, o, a + b) == Atom(m, f, o, a) + b
  {
  }

  lemma TypedJoin(m: ModuleNames, f: Func, o: Operand, a: seq<Tok>, b: seq<Tok>)
    ensures Typed(m, f, o, a + b) == Typed(m, f, o, a) + b
  {
    hide Atom;
    AtomJoin(m, f, o, a, b);
  }

  lemma WordJoin(on: bool, word: string, a: seq<Tok>, b: seq<Tok>)
    ensures Word(on, word, a + b) == Word(on, word, a) + b
    ensures CommaWord(on, word, a + b) == CommaWord(on, word, a) + b
  {
  }

  lemma KindJoin(v: nat, a: seq<Tok>, b: seq<Tok>)
    ensures KindToks(v, a + b) == KindToks(v, a) + b && AlignToks(v, a + b) == AlignToks(v, a) + b
  {
  }

  lemma MarksJoin(o: Operand, a: seq<Tok>, b: seq<Tok>)
    ensures ArgMarks(o, a + b) == ArgMarks(o, a) + b
  {
    hide Word, KindToks, AlignToks, Has, EvenGpr;
    WordJoin(EvenGpr(Annotation(o)), "even", a, b);
    KindJoin(Annotation(o), TailEven(o, a), b);
    WordJoin(Has(o.argflags, ARG_ONSTACK), "onstack", TailAlign(o, a), b);
    WordJoin(Has(o.argflags, ARG_ZEXT), "zext", TailOnstack(o, a), b);
    WordJoin(Has(o.argflags, ARG_SEXT), "sext", TailZext(o, a), b);
    WordJoin(Has(o.argflags, ARG_ANON), "anon", TailSext(o, a), b);
    KindJoin(Annotation(o), TailAnon(o, a), b);
  }

  lemma ItemJoin(m: ModuleNames, f: Func, o: Operand, call: bool, a: seq<Tok>, b: seq<Tok>)
    ensures Item(m, f, o, call, a + b) == Item(m, f, o, call, a) + b
  {
    hide Typed, ArgMarks;
    if call {
      MarksJoin(o, a, b);
      TypedJoin(m, f, o, ArgMarks(o, a), b);
    } else {
      TypedJoin(m, f, o, a, b);
    }
  }

  lemma {:induction false} ItemsJoin(m: ModuleNames, f: Func, os: seq<Operand>, call: bool, a: seq<Tok>, b: seq<Tok>)
    ensures Items(m, f, os, call, a + b) == Items(m, f, os, call, a) + b
    decreases |os|
  {
    hide Items, Item;
    ItemsUnfold(m, f, os, call, a);
    ItemsUnfold(m, f, os, call, a + b);
    assert [RP] + (a + b) == ([RP] + a) + b;
    if |os| == 1 {
      ItemJoin(m, f, os[0], call, [RP] + a, b);
    } else if |os| > 1 {
      ItemsJoin(m, f, os[1..], call, a, b);
      var more := [Comma] + Items(m, f, os[1..], call, a);
      assert [Comma] + Items(m, f, os[1..], call, a + b) == more + b;
      ItemJoin(m, f, os[0], call, more, b);
    }
  }

  lemma EdgeJoin(m: ModuleNames, f: Func, e: Edge, a: seq<Tok>, b: seq<Tok>)
    ensures EdgeToks(m, f, e, a + b) == EdgeToks(m, f, e, a) + b
  {
    hide TypedList;
    ItemsJoin(m, f, e.args, false, a, b);
  }

  lemma {:induction false} CasesJoin(m: ModuleNames, f: Func, es: seq<Edge>, a: seq<Tok>, b: seq<Tok>)
    ensures Cases(m, f, es, a + b) == Cases(m, f, es, a) + b
    decreases |es|
  {
    hide EdgeToks;
    if es != [] {
      CasesJoin(m, f, es[1..], a, b);
      EdgeJoin(m, f, es[0], Cases(m, f, es[1..], a), b);
    }
  }

  lemma ClauseJoin(v: nat, a: seq<Tok>, b: seq<Tok>)
    ensures AlignClause(v, a + b) == AlignClause(v, a) + b && EtypeClause(v, a + b) == EtypeClause(v, a) + b
    ensures MemFlags(v, a + b) == MemFlags(v, a) + b
  {
    hide CommaWord, Has;
    WordJoin(Has(v, FLAG_SELF_INIT), "self_init", a, b);
    var third := CommaWord(Has(v, FLAG_SELF_INIT), "self_init", a);
    WordJoin(Has(v, FLAG_SEQ_CST), "seq_cst", third, b);
    WordJoin(Has(v, FLAG_VOLATILE), "volatile", CommaWord(Has(v, FLAG_SEQ_CST), "seq_cst", third), b);
  }

  lemma PairJoin(m: ModuleNames, f: Func, o: Operand, p: Operand, a: seq<Tok>, b: seq<Tok>)
    ensures Atom(m, f, o, [Comma] + Atom(m, f, p, a + b)) == Atom(m, f, o, [Comma] + Atom(m, f, p, a)) + b
  {
    hide Atom;
    AtomJoin(m, f, p, a, b);
    var more := [Comma] + Atom(m, f, p, a);
    assert [Comma] + (Atom(m, f, p, a) + b) == more + b;
    AtomJoin(m, f, o, more, b);
  }

  lemma TripleJoin(m: ModuleNames, f: Func, o: Operand, p: Operand, q: Operand, a: seq<Tok>, b: seq<Tok>)
    ensures Atom(m, f, o, [Comma] + Atom(m, f, p, [Comma] + Atom(m, f, q, a + b))) ==
              Atom(m, f, o, [Comma] + Atom(m, f, p, [Comma] + Atom(m, f, q, a))) + b
  {
    hide Atom;
    AtomJoin(m, f, q, a, b);
    var more := [Comma] + Atom(m, f, q, a);
    assert [Comma] + (Atom(m, f, q, a) + b) == more + b;
    PairJoin(m, f, o, p, more, b);
  }

  // --- shapes without a block header in them ------------------------------------------------------

  // No brace and no end, no parenthesis closing before a colon, and every
  // parenthesis opened after a word closed again.
  predicate Quiet(ts: seq<Tok>) {
    && (forall i | 0 <= i < |ts| :: !ts[i].LB? && !ts[i].RB? && !ts[i].Eof?)
    && (forall i | 0 <= i < |ts| - 1 && ts[i].RP? :: !ts[i + 1].Colon?)
    && (forall i | 0 <= i < |ts| - 1 && ts[i].Ident? && ts[i + 1].LP? :: ClosedAfter(ts, i))
  }

  predicate ClosedAfter(ts: seq<Tok>, i: nat) {
    exists j | i + 1 < j < |ts| :: ts[j].RP?
  }

  // May follow anything.
  predicate SafeFront(ts: seq<Tok>) {
    !Front(ts).LP? && !Front(ts).Colon?
  }

  predicate Tame(ts: seq<Tok>) {
    Quiet(ts) && SafeFront(ts)
  }

  predicate PlainTok(t: Tok) {
    !t.LB? && !t.RB? && !t.Eof? && !t.LP? && !t.Colon?
  }

  lemma TameCons(t: Tok, ts: seq<Tok>)
    requires PlainTok(t) && Tame(ts)
    ensures Tame([t] + ts)
  {
    QuietCons(t, ts);
  }

  lemma QuietCons(t: Tok, ts: seq<Tok>)
    requires !t.LB? && !t.RB? && !t.Eof? && Quiet(ts)
    requires t.RP? ==> !Front(ts).Colon?
    requires t.Ident? && Front(ts).LP? ==> exists j | 0 < j < |ts| :: ts[j].RP?
    ensures Quiet([t] + ts)
  {
    var all := [t] + ts;
    assert forall i | 0 <= i < |ts| :: all[i + 1] == ts[i];
    forall i | 0 <= i < |all| - 1 && all[i].RP?
      ensures !all[i + 1].Colon?
    {
      assert i > 0 ==> ts[i - 1].RP? && !ts[i].Colon?;
    }
    forall i | 0 <= i < |all| - 1 && all[i].Ident? && all[i + 1].LP?
      ensures ClosedAfter(all, i)
    {
      if i == 0 {
        var j :| 0 < j < |ts| && ts[j].RP?;
        assert all[j + 1].RP?;
      } else {
        assert ts[i - 1].Ident? && ts[i].LP? && ClosedAfter(ts, i - 1);
        var j :| i < j < |ts| && ts[j].RP?;
        assert all[j + 1].RP?;
      }
    }
  }

  // A word or symbol and a parenthesised part.
  lemma TameParen(t: Tok, ts: seq<Tok>)
    requires (t.Ident? || t.Symbol?) && Quiet(ts) && HasRP(ts)
    ensures Tame([t, LP] + ts)
  {
    QuietCons(LP, ts);
    var inner := [LP] + ts;
    var j :| 0 <= j < |ts| && ts[j].RP?;
    assert inner[j + 1].RP?;
    QuietCons(t, inner);
    assert [t] + inner == [t, LP] + ts;
  }

  predicate HasRP(ts: seq<Tok>) {
    exists j | 0 <= j < |ts| :: ts[j].RP?
  }

  lemma HasRPCons(t: Tok, ts: seq<Tok>)
    requires HasRP(ts) || t.RP?
    ensures HasRP([t] + ts)
  {
    var all := [t] + ts;
    if t.RP? {
      assert all[0].RP?;
    } else {
      var j :| 0 <= j < |ts| && ts[j].RP?;
      assert all[j + 1].RP?;
    }
  }

  lemma TameColon(a: Tok, b: Tok, ts: seq<Tok>)
    requires PlainTok(a) && !a.RP? && (a.Ident? ==> !Front(ts).LP?) && Quiet(ts) && PlainTok(b) && SafeFront(ts)
    ensures Tame([a, Colon, b] + ts)
  {
    TameCons(b, ts);
    var after := [b] + ts;
    QuietCons(Colon, after);
    QuietCons(a, [Colon] + after);
    assert [a] + ([Colon] + after) == [a, Colon, b] + ts;
  }

  lemma TameAtom(m: ModuleNames, f: Func, o: Operand, ts: seq<Tok>)
    requires Tame(ts)
    ensures Tame(Atom(m, f, o, ts)) && (HasRP(ts) ==> HasRP(Atom(m, f, o, ts)))
  {
    hide Tame, ValTok, SymTok, NameAt;
    if o.kind == OpFconst && o.ty != TYPE_F32 && o.ty != TYPE_F64 {
      TameFacts(ts);
      var high, low := HexTok(o.b, if o.ty == TYPE_F80 then 4 else 16), HexTok(o.a, 16);
      TameColon(high, low, ts);
      RPLater([high, Colon, low], ts);
    } else if o.kind == OpSymbol && o.a != 0 {
      SymTokIs(NameAt(m.syms, o.sym));
      TameCons(IntTok(o.a), ts);
      var t := SymTok(NameAt(m.syms, o.sym));
      TameCons(t, [IntTok(o.a)] + ts);
      assert [t] + ([IntTok(o.a)] + ts) == [t, IntTok(o.a)] + ts;
      RPLater([t, IntTok(o.a)], ts);
    } else {
      SymTokIs(NameAt(m.syms, o.sym));
      ValTokShape(f, Verifier.UsedId(o));
      var t := Atom(m, f, o, ts)[0];
      TameCons(t, ts);
      RPLater([t], ts);
    }
  }

  lemma TameFacts(ts: seq<Tok>)
    requires Tame(ts)
    ensures Quiet(ts) && SafeFront(ts)
  {
  }

  lemma SymTokIs(name: string)
    ensures SymTok(name).Symbol?
  {
  }

  lemma ValTokShape(f: Func, id: nat)
    ensures ValTok(f, id).Pident?
  {
  }

  lemma RPLater(front: seq<Tok>, ts: seq<Tok>)
    ensures HasRP(ts) ==> HasRP(front + ts)
  {
    if HasRP(ts) {
      var j :| 0 <= j < |ts| && ts[j].RP?;
      assert (front + ts)[|front| + j].RP?;
    }
  }

  lemma TameTyped(m: ModuleNames, f: Func, o: Operand, ts: seq<Tok>)
    requires Tame(ts)
    ensures Tame(Typed(m, f, o, ts)) && (HasRP(ts) ==> HasRP(Typed(m, f, o, ts)))
  {
    hide Tame, Atom, HasRP, TypeName;
    TameAtom(m, f, o, ts);
    TameCons(Ident(TypeName(o.ty)), Atom(m, f, o, ts));
    RPLater([Ident(TypeName(o.ty))], Atom(m, f, o, ts));
  }

  lemma TameWord(on: bool, word: string, ts: seq<Tok>)
    requires Tame(ts)
    ensures Tame(Word(on, word, ts)) && (HasRP(ts) ==> HasRP(Word(on, word, ts)))
    ensures Tame(CommaWord(on, word, ts))
  {
    hide Tame, HasRP;
    TameCons(Ident(word), ts);
    TameCons(Comma, [Ident(word)] + ts);
    assert [Comma] + ([Ident(word)] + ts) == [Comma, Ident(word)] + ts;
    RPLater([Ident(word)], ts);
  }

  lemma TameOpen(word: string, inside: seq<Tok>, ts: seq<Tok>)
    requires Tame(ts) && (|inside| == 1 || |inside| == 3) && forall t | t in inside :: t.IntTok? || t.Comma?
    ensures var all := [Ident(word), LP] + inside + [RP] + ts; Tame(all) && (HasRP(ts) ==> HasRP(all))
  {
    hide Tame, HasRP;
    TameCons(RP, ts);
    HasRPCons(RP, ts);
    TameRun(inside, [RP] + ts);
    RPLater(inside, [RP] + ts);
    var within := inside + ([RP] + ts);
    TameFacts(within);
    TameParen(Ident(word), within);
    assert [Ident(word), LP] + within == [Ident(word), LP] + inside + [RP] + ts;
    RPLater([Ident(word), LP] + inside + [RP], ts);
  }

  lemma {:induction false} TameRun(front: seq<Tok>, ts: seq<Tok>)
    requires Tame(ts) && forall t | t in front :: PlainTok(t)
    ensures Tame(front + ts)
    decreases |front|
  {
    hide Tame, PlainTok;
    if front == [] {
      assert front + ts == ts;
    } else {
      assert front[0] in front;
      TameRun(front[1..], ts);
      TameCons(front[0], front[1..] + ts);
      assert [front[0]] + (front[1..] + ts) == front + ts;
    }
  }

  lemma TameMarks(o: Operand, ts: seq<Tok>)
    requires Tame(ts)
    ensures Tame(ArgMarks(o, ts)) && (HasRP(ts) ==> HasRP(ArgMarks(o, ts)))
  {
    hide Tame, HasRP, Word, KindToks, AlignToks, Has, EvenGpr;
    var b := Annotation(o);
    TameWord(EvenGpr(b), "even", ts);
    TameAlign(b, TailEven(o, ts));
    TameWord(Has(o.argflags, ARG_ONSTACK), "onstack", TailAlign(o, ts));
    TameWord(Has(o.argflags, ARG_ZEXT), "zext", TailOnstack(o, ts));
    TameWord(Has(o.argflags, ARG_SEXT), "sext", TailZext(o, ts));
    TameWord(Has(o.argflags, ARG_ANON), "anon", TailSext(o, ts));
    TameKind(b, TailAnon(o, ts));
  }

  lemma TameAlign(b: nat, ts: seq<Tok>)
    requires Tame(ts)
    ensures Tame(AlignToks(b, ts)) && (HasRP(ts) ==> HasRP(AlignToks(b, ts)))
  {
    hide Tame, HasRP, StackAlign;
    var align := StackAlign(b);
    TameWord(true, "stackalign16", ts);
    TameOpen("stackalign", [IntTok(align)], ts);
    assert [Ident("stackalign"), LP] + [IntTok(align)] + [RP] + ts == [Ident("stackalign"), LP, IntTok(align), RP] + ts;
  }

  lemma TameKind(b: nat, ts: seq<Tok>)
    requires Tame(ts)
    ensures Tame(KindToks(b, ts)) && (HasRP(ts) ==> HasRP(KindToks(b, ts)))
  {
    hide Tame, HasRP, ArgKind, ArgSize, ArgLeaves, KindName;
    var kind := ArgKind(b);
    if kind == KIND_HFA {
      var inside := [IntTok(ArgSize(b)), Comma, IntTok(ArgLeaves(b))];
      TameOpen("hfa", inside, ts);
      assert [Ident("hfa"), LP] + inside + [RP] + ts == KindToks(b, ts);
    } else if kind != 0 {
      TameOpen(KindName(kind), [IntTok(ArgSize(b))], ts);
      assert [Ident(KindName(kind)), LP] + [IntTok(ArgSize(b))] + [RP] + ts == KindToks(b, ts);
    }
  }

  lemma TameItem(m: ModuleNames, f: Func, o: Operand, call: bool, ts: seq<Tok>)
    requires Tame(ts)
    ensures Tame(Item(m, f, o, call, ts)) && (HasRP(ts) ==> HasRP(Item(m, f, o, call, ts)))
  {
    hide Tame, HasRP, Typed, ArgMarks;
    if call {
      TameMarks(o, ts);
      TameTyped(m, f, o, ArgMarks(o, ts));
    } else {
      TameTyped(m, f, o, ts);
    }
  }

  lemma {:induction false} TameItems(m: ModuleNames, f: Func, os: seq<Operand>, call: bool, ts: seq<Tok>)
    requires Tame(ts)
    ensures Tame(Items(m, f, os, call, ts)) && HasRP(Items(m, f, os, call, ts))
    decreases |os|
  {
    hide Tame, HasRP, Items, Item;
    ItemsUnfold(m, f, os, call, ts);
    TameCons(RP, ts);
    HasRPCons(RP, ts);
    if |os| == 1 {
      TameItem(m, f, os[0], call, [RP] + ts);
    } else if |os| > 1 {
      TameItems(m, f, os[1..], call, ts);
      var more := Items(m, f, os[1..], call, ts);
      TameCons(Comma, more);
      RPLater([Comma], more);
      TameItem(m, f, os[0], call, [Comma] + more);
    }
  }

  lemma TameEdge(m: ModuleNames, f: Func, e: Edge, ts: seq<Tok>)
    requires Tame(ts)
    ensures Tame(EdgeToks(m, f, e, ts))
  {
    hide Tame, HasRP, TypedList;
    TameItems(m, f, e.args, false, ts);
    TameFacts(TypedList(m, f, e.args, ts));
    TameParen(Ident(BlockName(f, e.target)), TypedList(m, f, e.args, ts));
  }

  lemma {:induction false} TameCases(m: ModuleNames, f: Func, es: seq<Edge>, ts: seq<Tok>)
    requires Tame(ts)
    ensures Tame(Cases(m, f, es, ts))
    decreases |es|
  {
    hide Tame, EdgeToks;
    if es != [] {
      TameCases(m, f, es[1..], ts);
      var edge := EdgeToks(m, f, es[0], Cases(m, f, es[1..], ts));
      TameEdge(m, f, es[0], Cases(m, f, es[1..], ts));
      TameColonEdge(IntTok(Bits(es[0].caseVal)), edge);
      TameCons(Comma, [IntTok(Bits(es[0].caseVal)), Colon] + edge);
      assert [Comma] + ([IntTok(Bits(es[0].caseVal)), Colon] + edge) == Cases(m, f, es, ts);
    }
  }

  lemma TameColonEdge(a: Tok, ts: seq<Tok>)
    requires a.IntTok? && Tame(ts)
    ensures Tame([a, Colon] + ts)
  {
    QuietCons(Colon, ts);
    QuietCons(a, [Colon] + ts);
    assert [a] + ([Colon] + ts) == [a, Colon] + ts;
  }

  lemma TameClauses(v: nat, ts: seq<Tok>)
    requires Tame(ts)
    ensures Tame(AlignClause(v, ts)) && Tame(EtypeClause(v, ts)) && Tame(MemFlags(v, ts))
  {
    hide Tame, CommaWord, Has, EtypeName;
    TameRun([Comma, Ident("align"), IntTok(v)], ts);
    TameRun([Comma, Ident("etype"), Ident(EtypeName(v))], ts);
    TameWord(Has(v, FLAG_SELF_INIT), "self_init", ts);
    var third := CommaWord(Has(v, FLAG_SELF_INIT), "self_init", ts);
    TameWord(Has(v, FLAG_SEQ_CST), "seq_cst", third);
    TameWord(Has(v, FLAG_VOLATILE), "volatile", CommaWord(Has(v, FLAG_SEQ_CST), "seq_cst", third));
  }
}
