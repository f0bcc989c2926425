/** Reading back a printed instruction, opcode by opcode. */
module IrTripInsts {
  import opened Shared
  import opened Ir
  import opened IrNames
  import opened IrTokens
  import opened IrPrint
  import opened IrParse
  import opened IrTripOperands
  import opened IrTripLists

  // --- what a slot leads to when the function closes ----------------------------------------

  // The flags of a call argument that names a later value do not survive.
  function Drop(o: Operand, n: nat): Operand {
    if Forward(o, n) then o.(argflags := 0) else o
  }

  function DropAll(os: seq<Operand>, n: nat): (r: seq<Operand>)
    ensures |r| == |os|
  {
    seq(|os|, i requires 0 <= i < |os| => Drop(os[i], n))
  }

  function DropInst(inst: Inst, n: nat): Inst {
    inst.(addr := 0, ops := DropAll(inst.ops, n))
  }

  predicate Leads(s: Slot, o: Operand) {
    if s.pending.Ready? then s == Slot(o, Ready)
    else
      && o.kind == OpValue && o.a > 0 && s.pending.name == Decimal(o.a - 1) && o.sym == 0 && o.argflags == 0
      && (s.pending.written == -1 || s.pending.written == o.ty) && s.op.b == o.b
  }

  predicate AllLead(ss: seq<Slot>, os: seq<Operand>) {
    |ss| == |os| && forall i | 0 <= i < |os| :: Leads(ss[i], os[i])
  }

  predicate EdgeLeads(s: SlotEdge, e: Edge) {
    s.target == e.target && s.caseVal == e.caseVal && AllLead(s.args, e.args)
  }

  predicate InstLeads(x: SlotInst, inst: Inst) {
    && x.op == inst.op && x.ty == inst.ty && x.subop == inst.subop && x.flags == inst.flags
    && x.result == inst.result && x.callee == inst.callee && inst.addr == 0
    && AllLead(x.ops, inst.ops)
    && |x.edges| == |inst.edges| && forall i | 0 <= i < |x.edges| :: EdgeLeads(x.edges[i], inst.edges[i])
  }

  // A bare operand loses nothing.
  lemma BareLeads(m: ModuleNames, f: Func, s: Slot, o: Operand, ty: nat, n: nat, n': nat)
    requires Stands(s, o, n) && Bare(o) && AtomOk(m, f, o, ty)
    ensures Leads(s, Drop(o, n'))
  {
    assert o.(argflags := 0) == o;
  }

  lemma BareEdge(m: ModuleNames, f: Func, s: SlotEdge, e: Edge, n: nat)
    requires EdgeStands(s, e, n) && EdgeOk(m, f, e)
    ensures EdgeLeads(s, e)
  {
    hide Stands, Leads, AtomOk, Bare;
    forall i | 0 <= i < |e.args|
      ensures Leads(s.args[i], e.args[i])
    {
      assert ItemOk(m, f, e.args[i], false) && Stands(s.args[i], e.args[i], n);
      BareLeads(m, f, s.args[i], e.args[i], e.args[i].ty, n, n);
      DropBare(e.args[i], n);
    }
  }

  lemma DropBare(o: Operand, n: nat)
    requires Bare(o)
    ensures Drop(o, n) == o
  {
    assert o.(argflags := 0) == o;
  }

  // --- the state between instructions ----------------------------------------------------------

  function StateAt(m: ModuleNames, f: Func, n: nat): State
    requires n <= |f.vals|
  {
    State(NamesTo(n), TypesTo(f, n), m.syms)
  }

  function After(inst: Inst, n: nat): nat {
    if inst.result != 0 then n + 1 else n
  }

  // The next value in document order, of the instruction's type.
  predicate ResultOk(f: Func, inst: Inst, n: nat) {
    n <= |f.vals| && (inst.result != 0 ==> inst.result == n + 1 <= |f.vals| && f.vals[n].ty == inst.ty)
  }

  function ResultOf(inst: Inst): Result {
    if inst.result != 0 then Named(Decimal(inst.result - 1)) else Unnamed
  }

  lemma AppendBack(m: ModuleNames, f: Func, inst: Inst, n: nat)
    requires ResultOk(f, inst, n)
    ensures After(inst, n) <= |f.vals|
    ensures Append(StateAt(m, f, n), inst.ty, ResultOf(inst)) == Appended(inst.result, StateAt(m, f, After(inst, n)))
  {
    if inst.result != 0 {
      NamesMean(n, n + 1);
      assert TypesTo(f, n + 1) == TypesTo(f, n) + [inst.ty];
    }
  }

  // --- what an instruction must be to be printed ---------------------------------------------------

  ghost predicate Ready0(m: ModuleNames, f: Func, n: nat) {
    Canonical(f) && Distinct(m.syms) && n <= |f.vals|
  }

  predicate BareAtom(m: ModuleNames, f: Func, o: Operand, ty: nat) {
    AtomOk(m, f, o, ty) && Bare(o) && ty <= TYPE_VOID
  }

  predicate NoComma(rest: seq<Tok>) {
    !Front(rest).Comma?
  }

  // One bare atom, read at n; it leads to itself whatever is dropped later.
  lemma BareAtomBack(m: ModuleNames, f: Func, n: nat, n': nat, o: Operand, ty: nat, rest: seq<Tok>)
    requires Ready0(m, f, n) && BareAtom(m, f, o, ty) && NoInt(rest)
    ensures var p := ParseAtom(StateAt(m, f, n), ty, Atom(m, f, o, rest));
            p.Parsed? && p.st == StateAt(m, f, n) && p.rest == rest && Leads(p.value, Drop(o, n'))
  {
    hide ParseAtom, Atom, Canonical, AtomOk, Leads, Stands, NamesTo, Drop;
    AtomBack(m, f, n, StateAt(m, f, n), o, ty, rest);
    BareUnmarked(m, f, o, ty);
    BareLeads(m, f, ParseAtom(StateAt(m, f, n), ty, Atom(m, f, o, rest)).value, o, ty, n, n');
  }

  lemma BareTypedBack(m: ModuleNames, f: Func, n: nat, n': nat, o: Operand, rest: seq<Tok>)
    requires Ready0(m, f, n) && BareAtom(m, f, o, o.ty) && NoInt(rest)
    ensures var p := ParseTyped(StateAt(m, f, n), Typed(m, f, o, rest));
            p.Parsed? && p.st == StateAt(m, f, n) && p.rest == rest && Leads(p.value, Drop(o, n'))
  {
    hide ParseAtom, Atom, Canonical, AtomOk, Leads, Stands, NamesTo, Drop;
    BareAtomBack(m, f, n, n', o, o.ty, rest);
    TypeTokBack(o.ty);
  }

  lemma BareCmpBack(m: ModuleNames, f: Func, n: nat, n': nat, o: Operand, rest: seq<Tok>)
    requires Ready0(m, f, n) && BareAtom(m, f, o, o.ty) && NoInt(rest)
    ensures var p := ParseCmpAtom(StateAt(m, f, n), o.ty, Atom(m, f, o, rest));
            p.Parsed? && p.st == StateAt(m, f, n) && p.rest == rest && Leads(p.value, Drop(o, n'))
  {
    hide ParseCmpAtom, Atom, Canonical, AtomOk, Leads, Stands, NamesTo, Drop;
    CmpAtomBack(m, f, n, StateAt(m, f, n), o, rest);
    BareLeads(m, f, ParseCmpAtom(StateAt(m, f, n), o.ty, Atom(m, f, o, rest)).value, o, o.ty, n, n');
  }

  lemma PairBack(m: ModuleNames, f: Func, n: nat, n': nat, a: Operand, b: Operand, ty: nat, ty2: nat, rest: seq<Tok>)
    requires Ready0(m, f, n) && BareAtom(m, f, a, ty) && BareAtom(m, f, b, ty2) && NoInt(rest)
    ensures var p := ParsePair(StateAt(m, f, n), ty, ty2, Atom(m, f, a, [Comma] + Atom(m, f, b, rest)));
            p.Parsed? && p.st == StateAt(m, f, n) && p.rest == rest && AllLead(p.value, DropAll([a, b], n'))
  {
    hide ParseAtom, Atom, Canonical, BareAtom, Leads, NamesTo, Drop, StateAt;
    var more := [Comma] + Atom(m, f, b, rest);
    BareAtomBack(m, f, n, n', a, ty, more);
    BareAtomBack(m, f, n, n', b, ty2, rest);
    assert more[1..] == Atom(m, f, b, rest);
  }

  lemma TripleBack(m: ModuleNames, f: Func, n: nat, n': nat, a: Operand, b: Operand, c: Operand, ty: nat, ty2: nat, ty3: nat, rest: seq<Tok>)
    requires Ready0(m, f, n) && BareAtom(m, f, a, ty) && BareAtom(m, f, b, ty2) && BareAtom(m, f, c, ty3) && NoInt(rest)
    ensures var p := ParseTriple(StateAt(m, f, n), ty, ty2, ty3,
                                 Atom(m, f, a, [Comma] + Atom(m, f, b, [Comma] + Atom(m, f, c, rest))));
            p.Parsed? && p.st == StateAt(m, f, n) && p.rest == rest && AllLead(p.value, DropAll([a, b, c], n'))
  {
    hide ParseAtom, Atom, Canonical, BareAtom, Leads, NamesTo, Drop, StateAt, ParsePair;
    var more := [Comma] + Atom(m, f, c, rest);
    PairBack(m, f, n, n', a, b, ty, ty2, more);
    BareAtomBack(m, f, n, n', c, ty3, rest);
    assert more[1..] == Atom(m, f, c, rest);
  }

  lemma CommaWordBack(on: bool, word: string, rest: seq<Tok>)
    requires NoComma(rest)
    ensures TakeCommaWord(CommaWord(on, word, rest), word) == (on, rest)
  {
  }

  // --- arithmetic, comparisons, conversions ------------------------------------------------------------

  predicate PlainFields(inst: Inst) {
    inst.subop == 0 && inst.callee == 0
  }

  predicate BinaryOk(m: ModuleNames, f: Func, inst: Inst) {
    && Shaped(inst) && IsBinary(inst.op) && PlainFields(inst) && inst.result != 0 && inst.ty <= TYPE_VOID
    && (inst.flags == 0 || (inst.flags == FLAG_NSW && inst.op <= 2))
    && BareAtom(m, f, inst.ops[0], inst.ty) && BareAtom(m, f, inst.ops[1], inst.ty)
  }

  lemma BinaryBack(m: ModuleNames, f: Func, n: nat, inst: Inst, rest: seq<Tok>)
    requires Ready0(m, f, n) && ResultOk(f, inst, n) && BinaryOk(m, f, inst) && NoComma(rest) && NoInt(rest)
    ensures var p := ParseBinary(inst.op, StateAt(m, f, n), ResultOf(inst), Body(m, f, inst, rest)[1..]);
            p.Parsed? && p.rest == rest && p.st == StateAt(m, f, After(inst, n)) && InstLeads(p.value, DropInst(inst, After(inst, n)))
  {
    hide ParsePair, Atom, Canonical, BareAtom, Leads, NamesTo, Drop, StateAt, Append, TypeName, TypeNumber, OpName;
    var n', nsw := After(inst, n), Has(inst.flags, FLAG_NSW);
    var tail := CommaWord(nsw, "nsw", rest);
    var body := Body(m, f, inst, rest)[1..];
    AppendBack(m, f, inst, n);
    TypeTokBack(inst.ty);
    NotNsw(inst.ty);
    PairBack(m, f, n', n', inst.ops[0], inst.ops[1], inst.ty, inst.ty, tail);
    assert body[1..] == Atom(m, f, inst.ops[0], [Comma] + Atom(m, f, inst.ops[1], tail));
    CommaWordBack(nsw, "nsw", rest);
    assert inst.ops == [inst.ops[0], inst.ops[1]];
  }

  lemma NotNsw(ty: nat)
    requires ty <= TYPE_VOID
    ensures TypeName(ty) != "nsw"
  {
    TypeNameBack(ty);
    assert TypeNumber("nsw") == -1;
  }

  predicate CompareOk(m: ModuleNames, f: Func, inst: Inst) {
    && Shaped(inst) && (inst.op == IR_ICMP || inst.op == IR_FCMP) && inst.callee == 0 && inst.result != 0 && inst.ty == TYPE_I32
    && inst.subop < (if inst.op == IR_ICMP then 10 else 14)
    && (inst.flags == 0 || (inst.flags == FLAG_BOUNDS && inst.op == IR_ICMP))
    && inst.ops[0].ty == inst.ops[1].ty
    && BareAtom(m, f, inst.ops[0], inst.ops[0].ty) && BareAtom(m, f, inst.ops[1], inst.ops[1].ty)
  }

  lemma PredicateBack(inst: Inst)
    requires inst.subop < if inst.op == IR_ICMP then 10 else 14
    ensures inst.op == IR_ICMP ==> IcmpNumber(IcmpName(inst.subop)) == inst.subop
    ensures inst.op != IR_ICMP ==> FcmpNumber(FcmpName(inst.subop)) == inst.subop
  {
    if inst.op == IR_ICMP {
      IcmpNameBack(inst.subop);
    } else {
      FcmpNameBack(inst.subop);
    }
  }

  lemma CompareBack(m: ModuleNames, f: Func, n: nat, inst: Inst, rest: seq<Tok>)
    requires Ready0(m, f, n) && ResultOk(f, inst, n) && CompareOk(m, f, inst) && NoComma(rest) && NoInt(rest)
    ensures var p := ParseCompare(inst.op, StateAt(m, f, n), ResultOf(inst), Body(m, f, inst, rest)[1..]);
            p.Parsed? && p.rest == rest && p.st == StateAt(m, f, After(inst, n)) && InstLeads(p.value, DropInst(inst, After(inst, n)))
  {
    hide ParseCmpAtom, Atom, Canonical, BareAtom, Leads, NamesTo, Drop, StateAt, Append, TypeName, TypeNumber, IcmpName, IcmpNumber, FcmpName, FcmpNumber;
    var n', bounds := After(inst, n), Has(inst.flags, FLAG_BOUNDS);
    var tail := if inst.op == IR_ICMP then CommaWord(bounds, "bounds", rest) else rest;
    var body := Body(m, f, inst, rest)[1..];
    PredicateBack(inst);
    AppendBack(m, f, inst, n);
    OperandTypeOk(m, f, inst.ops[0], inst.ops[0].ty);
    TypeTokBack(inst.ops[0].ty);
    var more := [Comma] + Atom(m, f, inst.ops[1], tail);
    BareCmpBack(m, f, n', n', inst.ops[0], more);
    BareCmpBack(m, f, n', n', inst.ops[1], tail);
    assert body[2..] == Atom(m, f, inst.ops[0], more) && more[1..] == Atom(m, f, inst.ops[1], tail);
    CommaWordBack(bounds, "bounds", rest);
    assert inst.ops == [inst.ops[0], inst.ops[1]];
  }

  predicate UnaryOk(m: ModuleNames, f: Func, inst: Inst) {
    && Shaped(inst) && inst.result != 0 && inst.flags == 0 && inst.callee == 0 && inst.ty <= TYPE_VOID
    && |inst.ops| == 1 && inst.edges == [] && BareAtom(m, f, inst.ops[0], inst.ops[0].ty)
    && if inst.op == OP_FNEG || inst.op == OP_FABS then inst.subop == 0 && BareAtom(m, f, inst.ops[0], inst.ty)
       else if inst.op == OP_VSPLAT then inst.subop == 0 && inst.ops[0].ty == ElemType(inst.ty)
       else if inst.op == OP_VEXTRACT then inst.subop <= 255 && inst.ty == ElemType(inst.ops[0].ty)
       else IsReduce(inst.op) && inst.subop == 0 && inst.ty == ElemType(inst.ops[0].ty)
  }

  lemma UnaryParse(m: ModuleNames, f: Func, n: nat, inst: Inst, ty: nat, rest: seq<Tok>)
    requires Ready0(m, f, n) && ResultOk(f, inst, n) && |inst.ops| == 1 && |inst.edges| == 0 && BareAtom(m, f, inst.ops[0], ty) && NoInt(rest)
    ensures var p := ParseUnary(inst.op, StateAt(m, f, n), ResultOf(inst), inst.ty, ty, Atom(m, f, inst.ops[0], rest));
            p.Parsed? && p.rest == rest && p.st == StateAt(m, f, After(inst, n))
            && InstLeads(p.value, DropInst(inst, After(inst, n)).(subop := 0, flags := 0, callee := 0))
  {
    hide ParseAtom, Atom, Canonical, BareAtom, Leads, NamesTo, Drop, StateAt, Append;
    AppendBack(m, f, inst, n);
    BareAtomBack(m, f, After(inst, n), After(inst, n), inst.ops[0], ty, rest);
  }

  lemma VectorBack(m: ModuleNames, f: Func, n: nat, inst: Inst, rest: seq<Tok>)
    requires Ready0(m, f, n) && ResultOk(f, inst, n) && UnaryOk(m, f, inst) && NoComma(rest) && NoInt(rest)
    ensures var p := ParseVector(inst.op, StateAt(m, f, n), ResultOf(inst), Body(m, f, inst, rest)[1..]);
            p.Parsed? && p.rest == rest && p.st == StateAt(m, f, After(inst, n)) && InstLeads(p.value, DropInst(inst, After(inst, n)))
  {
    hide ParseUnary, Atom, Canonical, BareAtom, Leads, NamesTo, Drop, StateAt, Append, TypeName, TypeNumber, OpName;
    var body, o := Body(m, f, inst, rest)[1..], inst.ops[0];
    OperandTypeOk(m, f, o, o.ty);
    TypeTokBack(o.ty);
    TypeTokBack(inst.ty);
    if inst.op == OP_FNEG || inst.op == OP_FABS {
      assert body[1..] == Atom(m, f, o, rest);
      UnaryParse(m, f, n, inst, inst.ty, rest);
    } else if inst.op == OP_VSPLAT {
      assert body[2..] == Atom(m, f, o, rest);
      UnaryParse(m, f, n, inst, o.ty, rest);
    } else if inst.op == OP_VEXTRACT {
      var more := [Comma, IntTok(inst.subop)] + rest;
      assert body[1..] == Atom(m, f, o, more) && more[2..] == rest;
      UnaryParse(m, f, n, inst, o.ty, more);
    } else {
      assert body[1..] == Atom(m, f, o, rest);
      UnaryParse(m, f, n, inst, o.ty, rest);
    }
  }

  lemma OperandTypeOk(m: ModuleNames, f: Func, o: Operand, ty: nat)
    requires BareAtom(m, f, o, ty)
    ensures ty <= TYPE_VOID
  {
  }

  predicate CastOk(m: ModuleNames, f: Func, inst: Inst) {
    && Shaped(inst) && IsCast(inst.op) && inst.result != 0 && PlainFields(inst) && inst.flags == 0 && inst.ty <= TYPE_VOID
    && BareAtom(m, f, inst.ops[0], inst.ops[0].ty)
  }

  lemma CastBack(m: ModuleNames, f: Func, n: nat, inst: Inst, rest: seq<Tok>)
    requires Ready0(m, f, n) && ResultOk(f, inst, n) && CastOk(m, f, inst)
    ensures var p := ParseCast(inst.op, StateAt(m, f, n), ResultOf(inst), Body(m, f, inst, rest)[1..]);
            p.Parsed? && p.rest == rest && p.st == StateAt(m, f, After(inst, n)) && InstLeads(p.value, DropInst(inst, After(inst, n)))
  {
    hide ParseTyped, Typed, Canonical, BareAtom, Leads, NamesTo, Drop, StateAt, Append, TypeName, TypeNumber, OpName;
    var more := [Ident("to"), Ident(TypeName(inst.ty))] + rest;
    assert Body(m, f, inst, rest)[1..] == Typed(m, f, inst.ops[0], more);
    BareTypedBack(m, f, n, After(inst, n), inst.ops[0], more);
    TypeTokBack(inst.ty);
    AppendBack(m, f, inst, n);
    assert more[2..] == rest;
  }

  predicate SelectOk(m: ModuleNames, f: Func, inst: Inst) {
    && Shaped(inst) && inst.op == OP_SELECT && inst.result != 0 && PlainFields(inst) && inst.flags == 0 && inst.ty <= TYPE_VOID
    && BareAtom(m, f, inst.ops[0], TYPE_I32) && BareAtom(m, f, inst.ops[1], inst.ty) && BareAtom(m, f, inst.ops[2], inst.ty)
  }

  lemma SelectBack(m: ModuleNames, f: Func, n: nat, inst: Inst, rest: seq<Tok>)
    requires Ready0(m, f, n) && ResultOk(f, inst, n) && SelectOk(m, f, inst) && NoInt(rest)
    ensures var p := ParseSelect(StateAt(m, f, n), ResultOf(inst), Body(m, f, inst, rest)[1..]);
            p.Parsed? && p.rest == rest && p.st == StateAt(m, f, After(inst, n)) && InstLeads(p.value, DropInst(inst, After(inst, n)))
  {
    hide ParseAtom, ParsePair, Atom, Canonical, BareAtom, Leads, NamesTo, Drop, StateAt, Append, TypeName, TypeNumber;
    var n' := After(inst, n);
    var arms := Atom(m, f, inst.ops[1], [Comma] + Atom(m, f, inst.ops[2], rest));
    var more := [Comma, Ident(TypeName(inst.ty))] + arms;
    assert Body(m, f, inst, rest)[1..] == Atom(m, f, inst.ops[0], more);
    BareAtomBack(m, f, n, n', inst.ops[0], TYPE_I32, more);
    TypeTokBack(inst.ty);
    AppendBack(m, f, inst, n);
    assert more[2..] == arms;
    PairBack(m, f, n', n', inst.ops[1], inst.ops[2], inst.ty, inst.ty, rest);
    assert inst.ops == [inst.ops[0]] + [inst.ops[1], inst.ops[2]];
  }
}
