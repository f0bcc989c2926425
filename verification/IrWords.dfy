/** Where the parser's names come from: text lexes to words that can be spelled
    again, and the parser names nothing otherwise. */
module IrWords {
  import opened Shared
  import opened Ir
  import opened IrTokens
  import opened IrMarks
  import opened IrNames
  import opened IrPrint
  import opened IrParse
  import opened IrRecords
  import opened IrSpell
  import opened IrText
  import Probing
  import IrLex

  // --- words of the text -------------------------------------------------------------------

  predicate IsName(t: Tok) {
    t.Ident? || t.Symbol?
  }

  predicate WordsLex(ts: seq<Tok>) {
    forall i | 0 <= i < |ts| && IsName(ts[i]) :: Lexes(ts[i])
  }

  predicate AllNames(names: seq<string>) {
    forall i | 0 <= i < |names| :: NameLexes(names[i])
  }

  lemma OneLexes(s: string)
    requires s != "" && IrLex.LexOne(s).Lexed? && IsName(IrLex.LexOne(s).value)
    ensures Lexes(IrLex.LexOne(s).value)
  {
    hide IrLex.LexString, IrLex.HexNumber, NumberOf;
    if IrLex.IdentStart(s[0]) {
      assert IrLex.IdentLength(s) > 0;
    } else if s[0] == '%' || s[0] == '@' {
      assert IrLex.LexOne(s) == IrLex.LexName(s);
      NameTokenLexes(s);
    }
  }

  lemma NameTokenLexes(s: string)
    requires s != "" && (s[0] == '%' || s[0] == '@') && IrLex.LexName(s).Lexed?
    ensures Lexes(IrLex.LexName(s).value)
  {
    hide IrLex.IdentLength;
    var exact := s[0] == '@' && IrLex.Peek(s, 1) == '!';
    var at := if exact then s[2..] else s[1..];
    var n := IrLex.IdentLength(at);
    assert forall i | 0 <= i < n :: IrLex.IdentChar(at[i]) && at[..n][i] == at[i];
    if s[0] == '@' && !exact {
      assert at[..n][0] == s[1] != '!';
    }
  }

  lemma {:induction false} TextWordsLex(s: string)
    requires IrLex.LexAll(s).Tokens?
    ensures WordsLex(IrLex.LexAll(s).toks)
    decreases |s|
  {
    hide IrLex.LexOne, IrLex.Skip, Lexes;
    var at := IrLex.Skip(s);
    if at != "" {
      OneLexes'(at);
      TextWordsLex(IrLex.LexOne(at).rest);
    }
  }

  lemma OneLexes'(s: string)
    requires s != ""
    ensures IrLex.LexOne(s).Lexed? && IsName(IrLex.LexOne(s).value) ==> Lexes(IrLex.LexOne(s).value)
  {
    hide IrLex.LexOne, Lexes;
    if IrLex.LexOne(s).Lexed? && IsName(IrLex.LexOne(s).value) {
      OneLexes(s);
    }
  }

  // --- names the parser keeps ----------------------------------------------------------------

  // A symbol's token can be written again under the name it gives.
  lemma TokenNames(t: Tok)
    requires t.Symbol? && Lexes(t)
    ensures NameLexes(TokName(t))
  {
    if t.exact {
      assert ("!" + t.text)[1..] == t.text;
    }
  }

  lemma InsertedNames(syms: seq<string>, name: string)
    requires AllNames(syms) && NameLexes(name)
    ensures AllNames(Probing.Inserted(syms, name))
  {
    hide NameLexes;
  }

  // All symbols so far and all words to come.
  predicate Good(syms: seq<string>, ts: seq<Tok>) {
    AllNames(syms) && WordsLex(ts)
  }

  predicate Kept<T>(p: Parsed<T>) {
    p.Parsed? ==> Good(p.st.syms, p.rest)
  }

  lemma Later(syms: seq<string>, ts: seq<Tok>, n: nat)
    requires Good(syms, ts) && n <= |ts|
    ensures Good(syms, ts[n..])
  {
    hide Lexes, IsName, AllNames;
    forall i | 0 <= i < |ts| - n && IsName(ts[n..][i])
      ensures Lexes(ts[n..][i])
    {
      assert ts[n..][i] == ts[i + n];
    }
  }

  // rest is what is left of ts.
  predicate Remains(ts: seq<Tok>, rest: seq<Tok>) {
    |rest| <= |ts| && ts[|ts| - |rest|..] == rest
  }

  lemma Remaining(syms: seq<string>, ts: seq<Tok>, rest: seq<Tok>)
    requires Good(syms, ts) && Remains(ts, rest)
    ensures Good(syms, rest)
  {
    hide Good;
    Later(syms, ts, |ts| - |rest|);
  }

  lemma {:induction false} AtomKeeps(st: State, ty: nat, ts: seq<Tok>)
    requires Good(st.syms, ts)
    ensures Kept(ParseAtom(st, ty, ts))
  {
    if ts != [] && ts[0].Symbol? {
      assert IsName(ts[0]);
      TokenNames(ts[0]);
      InsertedNames(st.syms, TokName(ts[0]));
      var syms := Probing.Inserted(st.syms, TokName(ts[0]));
      assert Good(syms, ts);
      hide Good;
      Later(syms, ts, 1);
      if |ts| > 1 {
        Later(syms, ts, 2);
      }
    } else {
      hide Good;
      if |ts| > 0 { Later(st.syms, ts, 1); }
      if |ts| > 2 { Later(st.syms, ts, 3); }
    }
  }

  lemma TypedKeeps(st: State, ts: seq<Tok>)
    requires Good(st.syms, ts)
    ensures Kept(ParseTyped(st, ts))
  {
    hide Good, Kept, ParseAtom;
    assert Kept<Slot>(Fail) by { FailKept<Slot>(); }
    if TypeOfTok(Front(ts)) >= 0 {
      Later(st.syms, ts, 1);
      AtomKeeps(st, TypeOfTok(ts[0]), ts[1..]);
    }
  }

  lemma FailKept<T>()
    ensures Kept<T>(Fail)
  {
  }

  // --- operands and lists --------------------------------------------------------------------

  lemma CmpAtomKeeps(st: State, written: nat, ts: seq<Tok>)
    requires Good(st.syms, ts)
    ensures Kept(ParseCmpAtom(st, written, ts))
  {
    hide Good, ParseAtom;
    AtomKeeps(st, written, ts);
  }

  // Marks leave the table alone and stop further on.
  predicate Passes(st: State, ts: seq<Tok>, p: Parsed<Slot>) {
    p.Parsed? ==> p.st == st && Remains(ts, p.rest)
  }

  lemma FlagPasses(s: Slot, st: State, ts: seq<Tok>, word: string, flag: nat)
    ensures Passes(st, ts, TakeFlag(s, st, ts, word, flag))
  {
  }

  lemma RemainsThen(ts: seq<Tok>, mid: seq<Tok>, rest: seq<Tok>)
    requires Remains(ts, mid) && Remains(mid, rest)
    ensures Remains(ts, rest)
  {
    assert mid[|mid| - |rest|..] == ts[|ts| - |rest|..];
  }

  lemma KindPasses(s: Slot, st: State, ts: seq<Tok>)
    ensures Passes(st, ts, ParseKind(s, st, ts))
  {
    hide BitOr, KindOf;
  }

  lemma AlignPasses(s: Slot, st: State, ts: seq<Tok>)
    ensures Passes(st, ts, ParseAlignMark(s, st, ts)) && Passes(st, ts, ParseEven(s, st, ts))
  {
    hide BitOr;
  }

  lemma MarksPass(s: Slot, st: State, ts: seq<Tok>)
    ensures Passes(st, ts, ParseMarks(s, st, ts))
  {
    hide TakeFlag, ParseAlignMark, ParseEven, Remains;
    FlagPasses(s, st, ts, "anon", ARG_ANON);
    var p1 := TakeFlag(s, st, ts, "anon", ARG_ANON);
    if p1.Parsed? {
      FlagPasses(p1.value, st, p1.rest, "sext", ARG_SEXT);
      FlagPasses(p1.value, st, p1.rest, "zext", ARG_ZEXT);
      var p2 := if IsWord(Front(p1.rest), "sext") then TakeFlag(p1.value, st, p1.rest, "sext", ARG_SEXT)
                else TakeFlag(p1.value, st, p1.rest, "zext", ARG_ZEXT);
      if p2.Parsed? {
        RemainsThen(ts, p1.rest, p2.rest);
        FlagPasses(p2.value, st, p2.rest, "onstack", ARG_ONSTACK);
        var p3 := TakeFlag(p2.value, st, p2.rest, "onstack", ARG_ONSTACK);
        if p3.Parsed? {
          RemainsThen(ts, p2.rest, p3.rest);
          AlignPasses(p3.value, st, p3.rest);
          var p4 := ParseAlignMark(p3.value, st, p3.rest);
          if p4.Parsed? {
            RemainsThen(ts, p3.rest, p4.rest);
            AlignPasses(p4.value, st, p4.rest);
            if ParseEven(p4.value, st, p4.rest).Parsed? {
              RemainsThen(ts, p4.rest, ParseEven(p4.value, st, p4.rest).rest);
            }
          }
        }
      }
    }
  }

  lemma CallArgKeeps(st: State, ts: seq<Tok>)
    requires Good(st.syms, ts)
    ensures Kept(ParseCallArg(st, ts))
  {
    hide Good, ParseTyped, ParseKind, ParseMarks, Remains;
    TypedKeeps(st, ts);
    var p := ParseTyped(st, ts);
    if p.Parsed? {
      KindPasses(p.value, p.st, p.rest);
      var q := ParseKind(p.value, p.st, p.rest);
      if q.Parsed? {
        Remaining(p.st.syms, p.rest, q.rest);
        MarksPass(q.value, p.st, q.rest);
        if ParseMarks(q.value, p.st, q.rest).Parsed? {
          Remaining(p.st.syms, q.rest, ParseMarks(q.value, p.st, q.rest).rest);
        }
      }
    }
  }

  lemma {:induction false} ItemsKeep(st: State, ts: seq<Tok>, n: nat, first: bool, call: bool)
    requires Good(st.syms, ts)
    ensures Kept(ParseItems(st, ts, n, first, call))
    decreases n
  {
    hide Good, ParseCallArg, ParseTyped;
    if ts != [] {
      Later(st.syms, ts, 1);
    }
    if n > 0 && (first || Front(ts).Comma?) {
      var at := if first then ts else ts[1..];
      CallArgKeeps(st, at);
      TypedKeeps(st, at);
      var p := if call then ParseCallArg(st, at) else ParseTyped(st, at);
      if p.Parsed? {
        ItemsKeep(p.st, p.rest, n - 1, false, call);
      }
    }
  }

  lemma EdgeKeeps(k: Known, st: State, ts: seq<Tok>, caseVal: int)
    requires Good(st.syms, ts)
    ensures Kept(ParseEdge(k, st, ts, caseVal))
  {
    hide Good, ParseItems, CountArgs;
    if |ts| >= 2 && CountArgs(ts[2..]) >= 0 {
      Later(st.syms, ts, 2);
      ItemsKeep(st, ts[2..], CountArgs(ts[2..]), true, false);
    }
  }

  lemma {:induction false} MemFlagsRemain(ts: seq<Tok>, flags: nat)
    ensures Remains(ts, ParseMemFlags(ts, flags).1)
    decreases |ts|
  {
    hide BitOr, MemFlagOf;
    if Front(ts).Comma? && |ts| >= 2 && MemFlagOf(ts[1]) != 0 {
      MemFlagsRemain(ts[2..], BitOr(flags, MemFlagOf(ts[1])));
      RemainsThen(ts, ts[2..], ParseMemFlags(ts, flags).1);
    }
  }

  lemma ClausesRemain(ts: seq<Tok>, n: nat, word: string)
    ensures ParseAlign(ts).Clause? ==> Remains(ts, ParseAlign(ts).rest)
    ensures ParseEtype(ts, n).Clause? ==> Remains(ts, ParseEtype(ts, n).rest)
    ensures Remains(ts, TakeCommaWord(ts, word).1) && Remains(ts, TakeWord(ts, word).1)
  {
    hide EtypeNumber;
  }

  // --- instructions ----------------------------------------------------------------------------

  lemma AppendKeeps(st: State, ty: nat, r: Result)
    ensures Append(st, ty, r).Appended? ==> Append(st, ty, r).st.syms == st.syms
  {
  }

  lemma PairKeeps(st: State, ty: nat, ty2: nat, ts: seq<Tok>)
    requires Good(st.syms, ts)
    ensures Kept(ParsePair(st, ty, ty2, ts))
  {
    hide Good, ParseAtom;
    AtomKeeps(st, ty, ts);
    var p := ParseAtom(st, ty, ts);
    if p.Parsed? && Front(p.rest).Comma? {
      Later(p.st.syms, p.rest, 1);
      AtomKeeps(p.st, ty2, p.rest[1..]);
    }
  }

  lemma TripleKeeps(st: State, ty: nat, ty2: nat, ty3: nat, ts: seq<Tok>)
    requires Good(st.syms, ts)
    ensures Kept(ParseTriple(st, ty, ty2, ty3, ts))
  {
    hide Good, ParseAtom, ParsePair;
    PairKeeps(st, ty, ty2, ts);
    var p := ParsePair(st, ty, ty2, ts);
    if p.Parsed? && Front(p.rest).Comma? {
      Later(p.st.syms, p.rest, 1);
      AtomKeeps(p.st, ty3, p.rest[1..]);
    }
  }

  lemma BinaryKeeps(op: nat, st: State, r: Result, ts: seq<Tok>)
    requires Good(st.syms, ts)
    ensures Kept(ParseBinary(op, st, r, ts))
  {
    hide Good, ParsePair, Append, TakeCommaWord, TypeOfTok, Remains;
    var at := if op <= 2 && IsWord(Front(ts), "nsw") then ts[1..] else ts;
    if op <= 2 && IsWord(Front(ts), "nsw") {
      Later(st.syms, ts, 1);
    }
    if TypeOfTok(Front(at)) >= 0 {
      NotNothing(at);
      Later(st.syms, at, 1);
      var ty: nat := TypeOfTok(Front(at));
      var a := Append(st, ty, r);
      AppendKeeps(st, ty, r);
      if a.Appended? {
        PairKeeps(a.st, ty, ty, at[1..]);
        var p := ParsePair(a.st, ty, ty, at[1..]);
        if p.Parsed? {
          ClausesRemain(p.rest, 0, "nsw");
          Remaining(p.st.syms, p.rest, TakeCommaWord(p.rest, "nsw").1);
        }
      }
    }
  }

  lemma NotNothing(ts: seq<Tok>)
    requires TypeOfTok(Front(ts)) >= 0
    ensures ts != []
  {
  }

  lemma CompareKeeps(op: nat, st: State, r: Result, ts: seq<Tok>)
    requires Good(st.syms, ts)
    ensures Kept(ParseCompare(op, st, r, ts))
  {
    hide Good, ParseCmpAtom, Append, TakeCommaWord, TypeOfTok, IcmpNumber, FcmpNumber, Remains;
    if |ts| >= 2 && TypeOfTok(ts[1]) >= 0 {
      Later(st.syms, ts, 2);
      var ty: nat := TypeOfTok(ts[1]);
      var a := Append(st, TYPE_I32, r);
      AppendKeeps(st, TYPE_I32, r);
      if a.Appended? {
        CmpAtomKeeps(a.st, ty, ts[2..]);
        var p := ParseCmpAtom(a.st, ty, ts[2..]);
        if p.Parsed? && Front(p.rest).Comma? {
          Later(p.st.syms, p.rest, 1);
          CmpAtomKeeps(p.st, ty, p.rest[1..]);
          var q := ParseCmpAtom(p.st, ty, p.rest[1..]);
          if q.Parsed? {
            ClausesRemain(q.rest, 0, "bounds");
            Remaining(q.st.syms, q.rest, TakeCommaWord(q.rest, "bounds").1);
          }
        }
      }
    }
    assert TypeOfTok(Eof) < 0 by { NoType(); }
  }

  lemma NoType()
    ensures TypeOfTok(Eof) < 0
  {
  }

  lemma UnaryKeeps(op: nat, st: State, r: Result, result: nat, operand: nat, ts: seq<Tok>)
    requires Good(st.syms, ts)
    ensures Kept(ParseUnary(op, st, r, result, operand, ts))
  {
    hide Good, ParseAtom, Append;
    AppendKeeps(st, result, r);
    if Append(st, result, r).Appended? {
      AtomKeeps(Append(st, result, r).st, operand, ts);
    }
  }

  lemma VectorKeeps(op: nat, st: State, r: Result, ts: seq<Tok>)
    requires Good(st.syms, ts)
    ensures Kept(ParseVector(op, st, r, ts))
  {
    hide Good, ParseUnary, TypeOfTok, ElemType;
    NoType();
    if TypeOfTok(Front(ts)) >= 0 {
      var ty: nat := TypeOfTok(Front(ts));
      Later(st.syms, ts, 1);
      UnaryKeeps(op, st, r, ty, ty, ts[1..]);
      UnaryKeeps(op, st, r, ElemType(ty), ty, ts[1..]);
      if |ts| >= 2 {
        Later(st.syms, ts, 2);
        UnaryKeeps(op, st, r, ty, ElemType(ty), ts[2..]);
      }
      var p := ParseUnary(op, st, r, ElemType(ty), ty, ts[1..]);
      if p.Parsed? && |p.rest| >= 2 {
        Later(p.st.syms, p.rest, 2);
      }
    }
  }

  lemma CastKeeps(op: nat, st: State, r: Result, ts: seq<Tok>)
    requires Good(st.syms, ts)
    ensures Kept(ParseCast(op, st, r, ts))
  {
    hide Good, ParseTyped, Append, TypeOfTok;
    NoType();
    TypedKeeps(st, ts);
    var p := ParseTyped(st, ts);
    if p.Parsed? && TypeOfTok(Second(p.rest)) >= 0 {
      AppendKeeps(p.st, TypeOfTok(p.rest[1]), r);
      Later(p.st.syms, p.rest, 2);
    }
  }

  lemma SelectKeeps(st: State, r: Result, ts: seq<Tok>)
    requires Good(st.syms, ts)
    ensures Kept(ParseSelect(st, r, ts))
  {
    hide Good, ParseAtom, ParsePair, Append, TypeOfTok;
    NoType();
    AtomKeeps(st, TYPE_I32, ts);
    var p := ParseAtom(st, TYPE_I32, ts);
    if p.Parsed? && TypeOfTok(Second(p.rest)) >= 0 {
      var ty: nat := TypeOfTok(p.rest[1]);
      AppendKeeps(p.st, ty, r);
      Later(p.st.syms, p.rest, 2);
      if Append(p.st, ty, r).Appended? {
        PairKeeps(Append(p.st, ty, r).st, ty, ty, p.rest[2..]);
      }
    }
  }

  lemma TailKeeps(op: nat, ty: nat, id: nat, ops: seq<Slot>, st: State, ts: seq<Tok>)
    requires Good(st.syms, ts)
    ensures Kept(ParseMemoryTail(op, ty, id, ops, st, ts))
  {
    hide Good, ParseAlign, ParseEtype, ParseMemFlags, Remains;
    ClausesRemain(ts, 0, "");
    var a := ParseAlign(ts);
    if a.Clause? {
      Remaining(st.syms, ts, a.rest);
      MemFlagsRemain(a.rest, 0);
      Remaining(st.syms, a.rest, ParseMemFlags(a.rest, 0).1);
      var flags := if op == OP_ALLOCA then (0, a.rest) else ParseMemFlags(a.rest, 0);
      ClausesRemain(flags.1, 0, "");
      if ParseEtype(flags.1, 0).Clause? {
        Remaining(st.syms, flags.1, ParseEtype(flags.1, 0).rest);
      }
      ClausesRemain(a.rest, ETYPE_CHAR, "");
      var e := ParseEtype(a.rest, ETYPE_CHAR);
      if e.Clause? {
        Remaining(st.syms, a.rest, e.rest);
        MemFlagsRemain(e.rest, 0);
        Remaining(st.syms, e.rest, ParseMemFlags(e.rest, 0).1);
      }
    }
  }

  lemma MemoryKeeps(op: nat, st: State, r: Result, ts: seq<Tok>)
    requires Good(st.syms, ts)
    ensures Kept(ParseMemory(op, st, r, ts))
  {
    hide Good, ParseAtom, ParseTyped, ParseTriple, Append, TypeOfTok, ParseMemoryTail;
    NoType();
    if op == OP_ALLOCA {
      AppendKeeps(st, TYPE_PTR, r);
      var a := Append(st, TYPE_PTR, r);
      if a.Appended? {
        AtomKeeps(a.st, TYPE_I64, ts);
        var p := ParseAtom(a.st, TYPE_I64, ts);
        if p.Parsed? {
          TailKeeps(op, TYPE_PTR, a.id, [p.value], p.st, p.rest);
        }
      }
    } else if op == OP_LOAD {
      LoadKeeps(st, r, ts);
    } else if op == OP_STORE {
      TypedKeeps(st, ts);
      var p := ParseTyped(st, ts);
      if p.Parsed? && Front(p.rest).Comma? {
        Later(p.st.syms, p.rest, 1);
        AtomKeeps(p.st, TYPE_PTR, p.rest[1..]);
        var q := ParseAtom(p.st, TYPE_PTR, p.rest[1..]);
        if q.Parsed? {
          TailKeeps(op, TYPE_VOID, 0, [p.value, q.value], q.st, q.rest);
        }
      }
    } else {
      TripleKeeps(st, TYPE_PTR, if op == OP_MEMCPY then TYPE_PTR else TYPE_I32, TYPE_I64, ts);
      var p := ParseTriple(st, TYPE_PTR, if op == OP_MEMCPY then TYPE_PTR else TYPE_I32, TYPE_I64, ts);
      if p.Parsed? {
        TailKeeps(op, TYPE_VOID, 0, p.value, p.st, p.rest);
      }
    }
  }

  lemma LoadKeeps(st: State, r: Result, ts: seq<Tok>)
    requires Good(st.syms, ts)
    ensures Kept(ParseMemory(OP_LOAD, st, r, ts))
  {
    hide Good, ParseAtom, Append, TypeOfTok, ParseMemoryTail;
    NoType();
    if TypeOfTok(Front(ts)) >= 0 && Second(ts).Comma? {
      var ty: nat := TypeOfTok(ts[0]);
      AppendKeeps(st, ty, r);
      var a := Append(st, ty, r);
      Later(st.syms, ts, 2);
      if a.Appended? {
        AtomKeeps(a.st, TYPE_PTR, ts[2..]);
        var p := ParseAtom(a.st, TYPE_PTR, ts[2..]);
        if p.Parsed? {
          TailKeeps(OP_LOAD, ty, a.id, [p.value], p.st, p.rest);
        }
      }
    }
  }

  lemma AtomicKeeps(op: nat, st: State, r: Result, ts: seq<Tok>)
    requires Good(st.syms, ts)
    ensures Kept(ParseAtomic(op, st, r, ts))
  {
    hide Good, ParsePair, ParseTriple, Append, TypeOfTok, ParseMemFlags, RmwNumber, Remains;
    NoType();
    if ts != [] {
      Later(st.syms, ts, 1);
    }
    var at := if op == OP_CMPXCHG || ts == [] then ts else ts[1..];
    if TypeOfTok(Front(at)) >= 0 {
      var ty: nat := TypeOfTok(at[0]);
      Later(st.syms, at, 1);
      AppendKeeps(st, ty, r);
      var a := Append(st, ty, r);
      if a.Appended? {
        PairKeeps(a.st, TYPE_PTR, ty, at[1..]);
        TripleKeeps(a.st, TYPE_PTR, ty, ty, at[1..]);
        var p := if op == OP_CMPXCHG then ParseTriple(a.st, TYPE_PTR, ty, ty, at[1..]) else ParsePair(a.st, TYPE_PTR, ty, at[1..]);
        if p.Parsed? {
          MemFlagsRemain(p.rest, 0);
          Remaining(p.st.syms, p.rest, ParseMemFlags(p.rest, 0).1);
        }
      }
    }
  }

  lemma PtraddKeeps(st: State, r: Result, ts: seq<Tok>)
    requires Good(st.syms, ts)
    ensures Kept(ParsePtradd(st, r, ts))
  {
    hide Good, ParsePair, Append;
    AppendKeeps(st, TYPE_PTR, r);
    if Append(st, TYPE_PTR, r).Appended? {
      PairKeeps(Append(st, TYPE_PTR, r).st, TYPE_PTR, TYPE_I64, ts);
    }
  }

  // --- calls -----------------------------------------------------------------------------------

  lemma CalleeKeeps(st: State, ts: seq<Tok>)
    requires Good(st.syms, ts)
    ensures Kept(ParseCallee(st, ts))
    ensures var p := ParseCallee(st, ts); p.Parsed? && p.value.Direct? ==> NameLexes(p.value.name)
  {
    hide ParseAtom, Lexes, AllNames;
    var ts1 := if IsWord(Front(ts), "external") then ts[1..] else ts;
    var ts2 := if IsWord(Front(ts1), "indirect") then ts1[1..] else ts1;
    if IsWord(Front(ts), "external") { Later(st.syms, ts, 1); }
    if IsWord(Front(ts1), "indirect") { Later(st.syms, ts1, 1); }
    if Front(ts2).Symbol? {
      assert IsName(ts2[0]);
      TokenNames(ts2[0]);
      Later(st.syms, ts2, 1);
    }
    hide Good, NameLexes;
    AtomKeeps(st, TYPE_PTR, ts2);
  }

  lemma CallFlagsRemain(ts: seq<Tok>)
    ensures Remains(ts, CallFlags(ts).1)
  {
    hide TakeWord, Remains, FlagIf;
    var a := TakeWord(ts, "unproto");
    var b := TakeWord(a.1, "va");
    ClausesRemain(ts, 0, "unproto");
    ClausesRemain(a.1, 0, "va");
    ClausesRemain(b.1, 0, "noreturn");
    RemainsThen(ts, a.1, b.1);
    RemainsThen(ts, b.1, TakeWord(b.1, "noreturn").1);
  }

  lemma RefKeeps(k: Known, st: State, c: Callee, ts: seq<Tok>)
    requires Good(st.syms, ts) && (c.Direct? ==> NameLexes(c.name))
    ensures Good(CalleeRef(k, st, c).2.syms, ts)
  {
    if c.Direct? {
      InsertedNames(st.syms, c.name);
    }
  }

  lemma CallKeeps(k: Known, st: State, r: Result, ts: seq<Tok>)
    requires Good(st.syms, ts)
    ensures Kept(ParseCall(k, st, r, ts))
  {
    hide Good, ParseCallee, Append, TypeOfTok, CountArgs, CalleeRef, ParseItems, CallFlags, NameLexes, Remains;
    NoType();
    if TypeOfTok(Front(ts)) >= 0 {
      var ty: nat := TypeOfTok(Front(ts));
      Later(st.syms, ts, 1);
      CalleeKeeps(st, ts[1..]);
      var c := ParseCallee(st, ts[1..]);
      if c.Parsed? && Front(c.rest).LP? && CountArgs(c.rest[1..]) >= 0 {
        Later(c.st.syms, c.rest, 1);
        AppendKeeps(c.st, ty, r);
        var a := Append(c.st, ty, r);
        if a.Appended? {
          ArgsKeep(k, a.st, c.value, c.rest[1..]);
        }
      }
    }
  }

  lemma ArgsKeep(k: Known, st: State, c: Callee, ts: seq<Tok>)
    requires Good(st.syms, ts) && (c.Direct? ==> NameLexes(c.name)) && CountArgs(ts) >= 0
    ensures var p := ParseItems(CalleeRef(k, st, c).2, ts, CountArgs(ts), true, true); p.Parsed? ==> Good(p.st.syms, CallFlags(p.rest).1)
  {
    hide Good, CountArgs, CalleeRef, ParseItems, CallFlags, NameLexes, Remains;
    RefKeeps(k, st, c, ts);
    ItemsKeep(CalleeRef(k, st, c).2, ts, CountArgs(ts), true, true);
    var p := ParseItems(CalleeRef(k, st, c).2, ts, CountArgs(ts), true, true);
    if p.Parsed? {
      CallFlagsRemain(p.rest);
      Remaining(p.st.syms, p.rest, CallFlags(p.rest).1);
    }
  }

  // --- terminators -------------------------------------------------------------------------------

  lemma {:induction false} CasesKeep(k: Known, st: State, ts: seq<Tok>)
    requires Good(st.syms, ts)
    ensures Kept(ParseCases(k, st, ts))
    decreases |ts|
  {
    hide Good, ParseEdge;
    if |ts| >= 3 && ts[1].IntTok? {
      Later(st.syms, ts, 3);
      EdgeKeeps(k, st, ts[3..], Signed(ts[1].value));
      var p := ParseEdge(k, st, ts[3..], Signed(ts[1].value));
      if p.Parsed? && |p.rest| < |ts| {
        CasesKeep(k, p.st, p.rest);
      }
    }
  }

  lemma FlowKeeps(op: nat, ops: seq<Slot>, edges: seq<SlotEdge>, st: State, ts: seq<Tok>, word: string)
    requires Good(st.syms, ts)
    ensures Kept(WithFlow(op, ops, edges, st, ts, word))
  {
    hide Good, TakeCommaWord, Remains;
    ClausesRemain(ts, 0, word);
    Remaining(st.syms, ts, TakeCommaWord(ts, word).1);
  }

  lemma CondbrKeeps(k: Known, st: State, ts: seq<Tok>)
    requires Good(st.syms, ts)
    ensures Kept(ParseCondbr(k, st, ts))
  {
    hide Good, ParseAtom, ParseEdge, WithFlow;
    AtomKeeps(st, TYPE_I32, ts);
    var c := ParseAtom(st, TYPE_I32, ts);
    if c.Parsed? && Front(c.rest).Comma? {
      Later(c.st.syms, c.rest, 1);
      EdgeKeeps(k, c.st, c.rest[1..], 0);
      var e := ParseEdge(k, c.st, c.rest[1..], 0);
      if e.Parsed? && Front(e.rest).Comma? {
        Later(e.st.syms, e.rest, 1);
        EdgeKeeps(k, e.st, e.rest[1..], 0);
        var e2 := ParseEdge(k, e.st, e.rest[1..], 0);
        if e2.Parsed? {
          FlowKeeps(OP_CONDBR, [c.value], [e.value, e2.value], e2.st, e2.rest, "config");
        }
      }
    }
  }

  lemma SwitchKeeps(k: Known, st: State, ts: seq<Tok>)
    requires Good(st.syms, ts)
    ensures Kept(ParseSwitch(k, st, ts))
  {
    hide Good, ParseAtom, ParseEdge, ParseCases, WithFlow, TypeOfTok;
    NoType();
    if TypeOfTok(Front(ts)) >= 0 {
      Later(st.syms, ts, 1);
      AtomKeeps(st, TypeOfTok(ts[0]), ts[1..]);
      var c := ParseAtom(st, TypeOfTok(ts[0]), ts[1..]);
      if c.Parsed? && Front(c.rest).Comma? {
        Later(c.st.syms, c.rest, 1);
        EdgeKeeps(k, c.st, c.rest[1..], 0);
        var e := ParseEdge(k, c.st, c.rest[1..], 0);
        if e.Parsed? {
          CasesKeep(k, e.st, e.rest);
          var es := ParseCases(k, e.st, e.rest);
          if es.Parsed? {
            FlowKeeps(OP_SWITCH, [c.value], [e.value] + es.value, es.st, es.rest, "config");
          }
        }
      }
    }
  }

  lemma TerminatorKeeps(op: nat, k: Known, st: State, ts: seq<Tok>)
    requires Good(st.syms, ts)
    ensures Kept(ParseTerminator(op, k, st, ts))
  {
    hide Good, ParseTyped, ParseEdge, ParseCondbr, ParseSwitch, WithFlow, TypeOfTok;
    if op == IR_RET {
      FlowKeeps(IR_RET, [], [], st, ts, "implicit");
      TypedKeeps(st, ts);
      var p := ParseTyped(st, ts);
      if p.Parsed? {
        FlowKeeps(IR_RET, [p.value], [], p.st, p.rest, "implicit");
      }
    } else if op == OP_BR {
      EdgeKeeps(k, st, ts, 0);
      var e := ParseEdge(k, st, ts, 0);
      if e.Parsed? {
        FlowKeeps(OP_BR, [], [e.value], e.st, e.rest, "defensive");
      }
    } else if op == OP_CONDBR {
      CondbrKeeps(k, st, ts);
    } else if op == OP_SWITCH {
      SwitchKeeps(k, st, ts);
    }
  }

  lemma BodyKeeps(op: nat, k: Known, st: State, r: Result, ts: seq<Tok>)
    requires Good(st.syms, ts)
    ensures Kept(ParseBody(op, k, st, r, ts))
  {
    hide Good, ParseBinary, ParseCompare, ParseCast, ParseVector, ParseSelect, ParseMemory, ParseAtomic, ParsePtradd, ParseCall, ParseUnary,
         ParseTerminator, Append;
    BinaryKeeps(op, st, r, ts);
    CompareKeeps(op, st, r, ts);
    CastKeeps(op, st, r, ts);
    VectorKeeps(op, st, r, ts);
    SelectKeeps(st, r, ts);
    MemoryKeeps(op, st, r, ts);
    AtomicKeeps(op, st, r, ts);
    PtraddKeeps(st, r, ts);
    CallKeeps(k, st, r, ts);
    UnaryKeeps(op, st, Unnamed, TYPE_VOID, TYPE_PTR, ts);
    TerminatorKeeps(op, k, st, ts);
    AppendKeeps(st, TYPE_PTR, r);
  }

  lemma InstKeeps(k: Known, st: State, ts: seq<Tok>)
    requires Good(st.syms, ts)
    ensures Kept(ParseInst(k, st, ts))
  {
    hide Good, ParseBody, OpNumber;
    var named := Front(ts).Pident?;
    if !named || Second(ts).Eq? {
      var at := if named then ts[2..] else ts;
      Later(st.syms, ts, if named then 2 else 0);
      assert ts[0..] == ts;
      if at != [] && at[0].Ident? && OpNumber(at[0].text) >= 0 {
        Later(st.syms, at, 1);
        BodyKeeps(OpNumber(at[0].text), k, st, if named then Named(ts[0].text) else Unnamed, at[1..]);
      }
    }
  }

  lemma {:induction false} InstsKeep(k: Known, st: State, ts: seq<Tok>)
    requires Good(st.syms, ts)
    ensures Kept(ParseInsts(k, st, ts))
    decreases |ts|
  {
    hide Good, ParseInst, AtHeader;
    InstKeeps(k, st, ts);
    var p := ParseInst(k, st, ts);
    if p.Parsed? && |p.rest| < |ts| {
      InstsKeep(k, p.st, p.rest);
    }
  }

  // --- blocks ------------------------------------------------------------------------------------

  lemma {:induction false} ParamsKeep(st: State, ts: seq<Tok>)
    requires Good(st.syms, ts)
    ensures Kept(ParseParams(st, ts))
    decreases |ts|
  {
    hide Good, Append, TypeOfTok;
    NoType();
    if TypeOfTok(Front(ts)) >= 0 && Second(ts).Pident? {
      Later(st.syms, ts, 2);
      AppendKeeps(st, TypeOfTok(ts[0]), Named(ts[1].text));
      var a := Append(st, TypeOfTok(ts[0]), Named(ts[1].text));
      if a.Appended? && |ts| >= 3 {
        Later(st.syms, ts, 3);
        ParamsKeep(a.st, ts[3..]);
      }
    }
  }

  lemma HeaderKeeps(k: Known, st: State, ts: seq<Tok>)
    requires Good(st.syms, ts)
    ensures Kept(ParseHeader(k, st, ts)) && (ParseHeader(k, st, ts).Parsed? ==> Lexes(Ident(ParseHeader(k, st, ts).value.0)))
  {
    hide ParseParams, Lexes, AllNames;
    assert Front(ts).Ident? ==> IsName(ts[0]);
    if Front(ts).Ident? && Second(ts).LP? {
      assert Lexes(Ident(ts[0].text));
      hide Good;
      Later(st.syms, ts, 2);
      ParamsKeep(st, ts[2..]);
      var p := if Front(ts[2..]).RP? then Parsed([], st, ts[2..]) else ParseParams(st, ts[2..]);
      if p.Parsed? && |p.rest| >= 2 {
        Later(p.st.syms, p.rest, 2);
      }
    }
  }

  predicate LabelsLex(blocks: seq<SlotBlock>) {
    forall b | 0 <= b < |blocks| :: Lexes(Ident(blocks[b].name))
  }

  lemma {:induction false} BlocksKeep(k: Known, st: State, ts: seq<Tok>)
    requires Good(st.syms, ts)
    ensures Kept(ParseBlocks(k, st, ts)) && (ParseBlocks(k, st, ts).Parsed? ==> LabelsLex(ParseBlocks(k, st, ts).value))
    decreases |ts|
  {
    hide Good, ParseHeader, ParseInsts, Lexes;
    if Front(ts).RB? {
      Later(st.syms, ts, 1);
    } else {
      HeaderKeeps(k, st, ts);
      var h := ParseHeader(k, st, ts);
      if h.Parsed? && |h.rest| < |ts| {
        InstsKeep(k, h.st, h.rest);
        var insts := ParseInsts(k, h.st, h.rest);
        if insts.Parsed? && |insts.rest| < |ts| {
          BlocksKeep(k, insts.st, insts.rest);
        }
      }
    }
  }

  // --- marks ---------------------------------------------------------------------------------------

  // What a clause leaves.
  predicate Left<T>(ts: seq<Tok>, c: Clause<T>) {
    c.Clause? ==> Remains(ts, c.rest)
  }

  lemma WordLeaves(ts: seq<Tok>, mid: seq<Tok>, word: string)
    requires Remains(ts, mid)
    ensures Remains(ts, TakeWord(mid, word).1)
  {
    hide TakeWord, Remains;
    ClausesRemain(mid, 0, word);
    RemainsThen(ts, mid, TakeWord(mid, word).1);
  }

  lemma VisibilityLeaves(ts: seq<Tok>, mid: seq<Tok>)
    requires Remains(ts, mid)
    ensures Left(ts, TakeVisibility(mid))
  {
    if TakeVisibility(mid).Clause? {
      RemainsThen(ts, mid, TakeVisibility(mid).rest);
    }
  }

  lemma SectionLeaves(ts: seq<Tok>, mid: seq<Tok>)
    requires Remains(ts, mid)
    ensures Left(ts, TakeSection(mid)) && Left(ts, TakeFuncAlign(mid)) && Left(ts, TakeByval(mid))
  {
    if TakeSection(mid).Clause? { RemainsThen(ts, mid, TakeSection(mid).rest); }
    if TakeFuncAlign(mid).Clause? { RemainsThen(ts, mid, TakeFuncAlign(mid).rest); }
    if TakeByval(mid).Clause? { RemainsThen(ts, mid, TakeByval(mid).rest); }
  }

  lemma StartLeaves(ts: seq<Tok>, mid: seq<Tok>, word: string)
    requires Remains(ts, mid)
    ensures Left(ts, TakeStart(word, mid)) && Left(ts, TakeStackAlign(mid)) && Left(ts, TakeTls(mid))
  {
    if TakeStart(word, mid).Clause? { RemainsThen(ts, mid, TakeStart(word, mid).rest); }
    if TakeStackAlign(mid).Clause? { RemainsThen(ts, mid, TakeStackAlign(mid).rest); }
    if TakeTls(mid).Clause? { RemainsThen(ts, mid, TakeTls(mid).rest); }
  }

  lemma AbiLeaves(ts: seq<Tok>, mid: seq<Tok>)
    requires Remains(ts, mid)
    ensures Left(ts, TakeAbi(mid))
  {
    hide AbiOf;
    if TakeAbi(mid).Clause? {
      RemainsThen(ts, mid, TakeAbi(mid).rest);
    }
  }

  lemma EndMarksLeave(k: FuncMarks, ts: seq<Tok>, mid: seq<Tok>)
    requires Remains(ts, mid)
    ensures Left(ts, TakeEndMarks(k, mid))
  {
    hide Remains, TakeStart, TakeAbi, TakeWord;
    StartLeaves(ts, mid, "constructor");
    var ctor := TakeStart("constructor", mid);
    if ctor.Clause? {
      StartLeaves(ts, ctor.rest, "destructor");
      var dtor := TakeStart("destructor", ctor.rest);
      if dtor.Clause? {
        AbiLeaves(ts, dtor.rest);
        var abi := TakeAbi(dtor.rest);
        if abi.Clause? {
          WordLeaves(ts, abi.rest, "setjmp");
          WordLeaves(ts, TakeWord(abi.rest, "setjmp").1, "contract");
        }
      }
    }
  }

  lemma MiddleMarksLeave(k: FuncMarks, ts: seq<Tok>, mid: seq<Tok>)
    requires Remains(ts, mid)
    ensures Left(ts, TakeMiddleMarks(k, mid))
  {
    hide Remains, TakeSection, TakeEndMarks, TakeWord;
    var used := TakeWord(mid, "used");
    WordLeaves(ts, mid, "used");
    var always := TakeWord(used.1, "always_inline");
    WordLeaves(ts, used.1, "always_inline");
    var only := TakeWord(always.1, "inline_only");
    WordLeaves(ts, always.1, "inline_only");
    var twice := TakeWord(only.1, "returns_twice");
    WordLeaves(ts, only.1, "returns_twice");
    SectionLeaves(ts, twice.1);
    var c := TakeSection(twice.1);
    if c.Clause? {
      EndMarksLeave(k.(used := used.0, alwaysInline := always.0, inlineOnly := only.0, returnsTwice := twice.0, section := c.value), ts, c.rest);
    }
  }

  lemma FuncMarksLeave(ts: seq<Tok>)
    ensures Left(ts, TakeFuncMarks(ts))
  {
    assert Remains(ts, ts);
    hide Remains, TakeVisibility, TakeFuncAlign, TakeMiddleMarks, TakeWord;
    var unproto := TakeWord(ts, "unproto");
    WordLeaves(ts, ts, "unproto");
    var internal := TakeWord(unproto.1, "internal");
    WordLeaves(ts, unproto.1, "internal");
    var weak := TakeWord(internal.1, "weak");
    WordLeaves(ts, internal.1, "weak");
    VisibilityLeaves(ts, weak.1);
    var v := TakeVisibility(weak.1);
    if v.Clause? {
      SectionLeaves(ts, v.rest);
      var a := TakeFuncAlign(v.rest);
      if a.Clause? {
        MiddleMarksLeave(NO_MARKS.(unproto := unproto.0, internal := internal.0, weak := weak.0, visibility := v.value, align := a.value), ts, a.rest);
      }
    }
  }

  lemma ParamMarkLeaves(ts: seq<Tok>)
    ensures Left(ts, TakeParamMark(ts))
  {
    assert Remains(ts, ts);
    hide Remains, TakeByval, TakeStackAlign, TakeWord;
    SectionLeaves(ts, ts);
    var byval := TakeByval(ts);
    if byval.Clause? {
      WordLeaves(ts, byval.rest, "onstack");
      StartLeaves(ts, TakeWord(byval.rest, "onstack").1, "");
      var align := TakeStackAlign(TakeWord(byval.rest, "onstack").1);
      if align.Clause? {
        WordLeaves(ts, align.rest, "even");
        WordLeaves(ts, TakeWord(align.rest, "even").1, "restrict");
      }
    }
  }

  lemma SymMarksLeave(ts: seq<Tok>)
    ensures Left(ts, TakeSymMarks(ts))
  {
    assert Remains(ts, ts);
    hide Remains, TakeVisibility, TakeTls, TakeWord;
    WordLeaves(ts, ts, "weak");
    VisibilityLeaves(ts, TakeWord(ts, "weak").1);
    var v := TakeVisibility(TakeWord(ts, "weak").1);
    if v.Clause? {
      StartLeaves(ts, v.rest, "");
      if TakeTls(v.rest).Clause? {
        WordLeaves(ts, TakeTls(v.rest).rest, "returns_twice");
      }
    }
  }

  lemma GlobalMarksLeave(g: Global, ts: seq<Tok>)
    ensures Left(ts, TakeGlobalMarks(g, ts))
  {
    assert Remains(ts, ts);
    hide Remains, TakeVisibility, TakeSection, TakeWord;
    var tentative := TakeWord(ts, "tentative");
    WordLeaves(ts, ts, "tentative");
    var tls := TakeWord(tentative.1, "tls");
    WordLeaves(ts, tentative.1, "tls");
    var weak := TakeWord(tls.1, "weak");
    WordLeaves(ts, tls.1, "weak");
    var used := TakeWord(weak.1, "used");
    WordLeaves(ts, weak.1, "used");
    var constant := TakeWord(used.1, "const");
    WordLeaves(ts, used.1, "const");
    SectionLeaves(ts, constant.1);
    if TakeSection(constant.1).Clause? {
      VisibilityLeaves(ts, TakeSection(constant.1).rest);
    }
  }

  // --- functions -----------------------------------------------------------------------------------

  lemma {:induction false} MarkedParamsKeep(st: State, ts: seq<Tok>)
    requires Good(st.syms, ts)
    ensures Kept(ParseMarkedParams(st, ts))
    decreases |ts|
  {
    hide Good, TakeParamMark, Append, TypeOfTok, Remains;
    NoType();
    if TypeOfTok(Front(ts)) >= 0 {
      Later(st.syms, ts, 1);
      ParamMarkLeaves(ts[1..]);
      var c := TakeParamMark(ts[1..]);
      if c.Clause? && |c.rest| < |ts| && Front(c.rest).Pident? {
        Remaining(st.syms, ts[1..], c.rest);
        Later(st.syms, c.rest, 1);
        AppendKeeps(st, TypeOfTok(ts[0]), Named(c.rest[0].text));
        var a := Append(st, TypeOfTok(ts[0]), Named(c.rest[0].text));
        if a.Appended? && |c.rest| >= 2 {
          Later(st.syms, c.rest, 2);
          MarkedParamsKeep(a.st, c.rest[2..]);
        }
      }
    }
  }

  lemma FuncParamsKeep(syms: seq<string>, ts: seq<Tok>)
    requires Good(syms, ts)
    ensures Kept(ParseFuncParams(syms, ts))
  {
    hide Good, ParseMarkedParams;
    if |ts| >= 1 { Later(syms, ts, 1); }
    if |ts| >= 2 { Later(syms, ts, 2); }
    MarkedParamsKeep(State(map[], [], syms), ts);
    var p := ParseMarkedParams(State(map[], [], syms), ts);
    if p.Parsed? {
      if |p.rest| >= 1 { Later(p.st.syms, p.rest, 1); }
      if |p.rest| >= 3 { Later(p.st.syms, p.rest, 3); }
    }
  }

  predicate BlockNamesLex(blocks: seq<Block>) {
    forall b | 0 <= b < |blocks| :: Lexes(Ident(blocks[b].name))
  }

  predicate FuncKept(r: FuncResult) {
    r.FuncResult? ==> Good(r.syms, r.rest) && BlockNamesLex(r.func.blocks)
  }

  lemma FuncBodyKeeps(funcs: map<string, nat>, h: Header, params: seq<nat>, st: State, body: seq<Tok>)
    requires Good(st.syms, body) && NameLexes(h.name)
    ensures FuncKept(ParseFuncBody(funcs, h, params, st, body))
  {
    hide ParseBlocks, Prescan, Numbered, BlockResolves, Lexes, NameLexes, WordsLex;
    var named := st.(syms := Probing.Inserted(st.syms, h.name));
    InsertedNames(st.syms, h.name);
    var p := Prescan(body, []);
    if p.Labels? && p.names != [] {
      BlocksKeep(Known(Numbered(p.names), funcs), named, body);
    }
  }

  lemma FuncKeeps(funcs: map<string, nat>, syms: seq<string>, ts: seq<Tok>)
    requires Good(syms, ts)
    ensures FuncKept(ParseFunc(funcs, syms, ts))
  {
    hide ParseFuncBody, ParseFuncParams, TakeFuncMarks, TypeOfTok, Lexes, NameLexes, AllNames, Remains, BlockNamesLex;
    if |ts| >= 3 && TypeOfTok(ts[0]) >= 0 && ts[1].Symbol? {
      assert IsName(ts[1]);
      TokenNames(ts[1]);
      hide Good;
      Later(syms, ts, 3);
      FuncParamsKeep(syms, ts[3..]);
      var p := ParseFuncParams(syms, ts[3..]);
      if p.Parsed? {
        FuncMarksLeave(p.rest);
        var c := TakeFuncMarks(p.rest);
        if c.Clause? && Front(c.rest).LB? {
          Remaining(p.st.syms, p.rest, c.rest);
          Later(p.st.syms, c.rest, 1);
          FuncBodyKeeps(funcs, Header(TypeOfTok(ts[0]), TokName(ts[1]), p.value.2, p.value.1, c.value), p.value.0, p.st, c.rest[1..]);
        }
      }
    }
  }

  // --- records -------------------------------------------------------------------------------------

  lemma AliasKeeps(syms: seq<string>, ts: seq<Tok>)
    requires Good(syms, ts)
    ensures var a := TakeAlias(ts); a.Clause? ==> Good(syms, a.rest) && NameLexes(a.value.name) && NameLexes(a.value.target)
  {
    hide TakeVisibility, TakeWord, Lexes, NameLexes, AllNames, Remains, LinkageOf;
    if TakeAlias(ts).Clause? {
      assert IsName(ts[0]) && IsName(ts[2]);
      TokenNames(ts[0]);
      TokenNames(ts[2]);
      hide Good;
      Later(syms, ts, 4);
      ClausesRemain(ts[4..], 0, "weak");
      VisibilityLeaves(ts[4..], TakeWord(ts[4..], "weak").1);
      Remaining(syms, ts[4..], TakeAlias(ts).rest);
    }
  }

  lemma {:induction false} RelocsKeep(syms: seq<string>, ts: seq<Tok>)
    requires Good(syms, ts)
    ensures var r := TakeRelocs(syms, ts); r.Relocs? ==> Good(r.syms, r.rest)
    decreases |ts|
  {
    hide Lexes, NameLexes;
    if |ts| >= 4 && ts[2].Symbol? {
      assert IsName(ts[2]);
      TokenNames(ts[2]);
      InsertedNames(syms, TokName(ts[2]));
      Later(syms, ts, 4);
      RelocsKeep(Probing.Inserted(syms, TokName(ts[2])), ts[4..]);
    }
  }

  lemma InitLeaves(size: nat, ts: seq<Tok>)
    ensures Left(ts, TakeInit(size, ts))
  {
    hide ReadBytes;
  }

  lemma GlobalKeeps(syms: seq<string>, ts: seq<Tok>)
    requires Good(syms, ts)
    ensures var g := TakeGlobal(syms, ts); g.GlobalResult? ==> Good(g.syms, g.rest)
  {
    hide TakeGlobalMarks, TakeInit, TakeRelocs, Lexes, NameLexes, AllNames, Remains, LinkageOf, WordsLex;
    if TakeGlobal(syms, ts).GlobalResult? {
      var name, size := TokName(ts[0]), ts[2].value;
      FirstNames(syms, ts);
      var plain := Global(name, size, ts[4].value, LinkageOf(ts[5]), false, false, false, false, false, None, 0, None, []);
      Later(syms, ts, 6);
      GlobalMarksLeave(plain, ts[6..]);
      var marked := TakeGlobalMarks(plain, ts[6..]);
      Remaining(syms, ts[6..], marked.rest);
      InitLeaves(size, marked.rest);
      var init := TakeInit(size, marked.rest);
      Remaining(syms, marked.rest, init.rest);
      assert Good(Probing.Inserted(syms, name), init.rest);
      RelocsKeep(Probing.Inserted(syms, name), init.rest);
    }
  }

  lemma FirstNames(syms: seq<string>, ts: seq<Tok>)
    requires Good(syms, ts) && ts != [] && ts[0].Symbol?
    ensures AllNames(Probing.Inserted(syms, TokName(ts[0])))
  {
    hide Lexes, NameLexes;
    assert IsName(ts[0]);
    TokenNames(ts[0]);
    InsertedNames(syms, TokName(ts[0]));
  }

  // Every name of the module can be spelled.
  predicate ContentsLex(c: Contents) {
    && AllNames(c.syms) && (forall i | 0 <= i < |c.aliases| :: NameLexes(c.aliases[i].target))
    && forall i | 0 <= i < |c.funcs| :: BlockNamesLex(c.funcs[i].blocks)
  }

  lemma {:induction false} RecordsKeep(ids: map<string, nat>, c: Contents, ts: seq<Tok>)
    requires ContentsLex(c) && WordsLex(ts)
    ensures var p := ParseRecords(ids, c, ts); p.ParsedModule? ==> ContentsLex(p.contents)
    decreases |ts|, 1
  {
    hide TakeSymMarks, TakeAlias, TakeGlobal, ParseFunc, NameLexes, Lexes, BlockNamesLex, WordsLex, AllNames, Padded, Merged;
    if ts != [] && !ts[0].Eof? {
      if IsWord(ts[0], "ident") {
        if |ts| >= 2 && ts[1].Str? {
          Later(c.syms, ts, 2);
          RecordsKeep(ids, c.(idents := c.idents + [ts[1].bytes]), ts[2..]);
        }
      } else if IsWord(ts[0], "sym") {
        SymKeeps(ids, c, ts);
      } else if IsWord(ts[0], "alias") {
        Later(c.syms, ts, 1);
        AliasKeeps(c.syms, ts[1..]);
        var a := TakeAlias(ts[1..]);
        if a.Clause? && |a.rest| < |ts| {
          InsertedNames(c.syms, a.value.name);
          RecordsKeep(ids, WithSyms(c, Probing.Inserted(c.syms, a.value.name)).(aliases := c.aliases + [a.value]), a.rest);
        }
      } else if IsWord(ts[0], "global") {
        Later(c.syms, ts, 1);
        GlobalKeeps(c.syms, ts[1..]);
        var g := TakeGlobal(c.syms, ts[1..]);
        if g.GlobalResult? && |g.rest| < |ts| {
          RecordsKeep(ids, WithSyms(c, g.syms).(globals := c.globals + [g.global]), g.rest);
        }
      } else if IsWord(ts[0], "func") {
        Later(c.syms, ts, 1);
        FuncKeeps(ids, c.syms, ts[1..]);
        var f := ParseFunc(ids, c.syms, ts[1..]);
        if f.FuncResult? && |f.rest| < |ts| {
          RecordsKeep(ids, WithSyms(c, f.syms).(funcs := c.funcs + [f.func]), f.rest);
        }
      }
    }
  }

  lemma SymKeeps(ids: map<string, nat>, c: Contents, ts: seq<Tok>)
    requires ContentsLex(c) && WordsLex(ts) && ts != [] && IsWord(ts[0], "sym")
    ensures var p := ParseRecords(ids, c, ts); p.ParsedModule? ==> ContentsLex(p.contents)
    decreases |ts|, 0
  {
    hide TakeSymMarks, NameLexes, Lexes, BlockNamesLex, AllNames, Padded, Merged, Remains;
    if |ts| >= 2 && ts[1].Symbol? {
      assert IsName(ts[1]);
      TokenNames(ts[1]);
      hide WordsLex;
      Later(c.syms, ts, 2);
      SymMarksLeave(ts[2..]);
      var k := TakeSymMarks(ts[2..]);
      if k.Clause? && |k.rest| < |ts| {
        Remaining(c.syms, ts[2..], k.rest);
        InsertedNames(c.syms, TokName(ts[1]));
        RecordsKeep(ids, MarkSym(c, TokName(ts[1]), k.value), k.rest);
      }
    }
  }

  // Parsed text names nothing that cannot be spelled.
  lemma ParsedNamesLex(text: string)
    ensures match IrLex.LexAll(text)
            case BadText => true
            case Tokens(ts) => ParseModule(ts).ParsedModule? ==> ContentsLex(ParseModule(ts).contents)
  {
    hide ParseRecords, PrescanFuncs, Numbered, NameLexes, BlockNamesLex, IrLex.LexAll;
    var l := IrLex.LexAll(text);
    if l.Tokens? {
      TextWordsLex(text);
      var p := PrescanFuncs(l.toks, 0, []);
      if p.Labels? {
        RecordsKeep(Numbered(p.names), Contents([], [], [], [], [], []), l.toks);
      }
    }
  }
}
