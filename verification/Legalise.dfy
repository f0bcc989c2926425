/** Legalising binary128: comparisons become a runtime call and an integer test,
    other operations become the call itself. What the pass builds, and the proof
    that a run of the function computes the same values. */
module Legalise {
  import opened Ir
  import opened Binary128
  import opened Probing

  const FUNCREF_EXTERNAL: nat := 1
  const FLAG_NSW: nat := 8

  // The symbol table and the value table; both only grow.
  datatype Tables = Tables(syms: seq<string>, vals: seq<ValInfo>)

  datatype Outcome = Outcome(tables: Tables, insts: seq<Inst>)

  function ClearNsw(flags: nat): nat {
    if flags / FLAG_NSW % 2 == 1 then flags - FLAG_NSW else flags
  }

  function ValueOperand(id: nat): Operand {
    Operand(OpValue, TYPE_I32, 0, 0, id, 0)
  }

  const ZeroOperand: Operand := Operand(OpIconst, TYPE_I32, 0, 0, 0, 0)

  // New instructions; their identity is not of interest here.
  function LibcallInst(callee: nat, result: nat, args: seq<Operand>): Inst {
    Inst(0, IR_CALL, TYPE_I32, FUNCREF_EXTERNAL, 0, result, callee, args, [])
  }

  function TestInst(pred: nat, result: nat, tested: nat): Inst {
    Inst(0, IR_ICMP, TYPE_I32, pred, 0, result, 0, [ValueOperand(tested), ZeroOperand], [])
  }

  function AddValue(t: Tables, block: nat): Tables {
    t.(vals := t.vals + [ValInfo(TYPE_I32, DefInst, block, 0)])
  }

  function AddSym(t: Tables, name: string): Tables {
    t.(syms := Inserted(t.syms, name))
  }

  predicate IsCompare(inst: Inst) {
    inst.op == IR_FCMP && |inst.ops| == 2 && inst.ops[0].ty == TYPE_F128
  }

  predicate KnownPredicate(inst: Inst) {
    IsCompare(inst) ==> inst.subop <= FCMP_UNO
  }

  function AsTest(inst: Inst, op: nat, subop: nat, ops: seq<Operand>): Inst {
    inst.(op := op, ty := TYPE_I32, subop := subop, flags := ClearNsw(inst.flags), ops := ops)
  }

  function AsCall(inst: Inst, callee: nat): Inst {
    inst.(op := IR_CALL, subop := FUNCREF_EXTERNAL, callee := callee, flags := ClearNsw(inst.flags))
  }

  function CompareOutcome(t: Tables, block: nat, inst: Inst, plan: CmpPlan): Outcome {
    var n, t1 := |t.vals|, AddValue(AddSym(t, plan.call), block);
    var first := LibcallInst(Find(t.syms, plan.call), n + 1, inst.ops);
    match plan
    case OneCall(_, pred) => Outcome(t1, [first, AsTest(inst, IR_ICMP, pred, [ValueOperand(n + 1), ZeroOperand])])
    case TwoCalls(_, pred, call2, pred2, combine) =>
      var second := LibcallInst(Find(t1.syms, call2), n + 2, inst.ops);
      Outcome(AddValue(AddValue(AddValue(AddSym(t1, call2), block), block), block),
              [first, second, TestInst(pred, n + 3, n + 1), TestInst(pred2, n + 4, n + 2),
               AsTest(inst, combine, 0, [ValueOperand(n + 3), ValueOperand(n + 4)])])
  }

  function LegaliseInst(t: Tables, block: nat, inst: Inst): Outcome
    requires KnownPredicate(inst)
  {
    if IsCompare(inst) then CompareOutcome(t, block, inst, ComparePlan(inst.subop).value)
    else
      match HelperFor(inst)
      case None => Outcome(t, [inst])
      case Some(name) => Outcome(AddSym(t, name), [AsCall(inst, Find(t.syms, name))])
  }

  predicate KnownPredicates(insts: seq<Inst>) {
    forall i | 0 <= i < |insts| :: KnownPredicate(insts[i])
  }

  function LegaliseInsts(t: Tables, block: nat, insts: seq<Inst>): Outcome
    requires KnownPredicates(insts)
    decreases |insts|
  {
    if insts == [] then Outcome(t, [])
    else
      var first := LegaliseInst(t, block, insts[0]);
      var rest := LegaliseInsts(first.tables, block, insts[1..]);
      Outcome(rest.tables, first.insts + rest.insts)
  }

  lemma {:induction false} LegaliseOneMore(t: Tables, block: nat, insts: seq<Inst>, x: Inst)
    requires KnownPredicates(insts) && KnownPredicate(x)
    ensures KnownPredicates(insts + [x])
    ensures var some, last := LegaliseInsts(t, block, insts), LegaliseInst(LegaliseInsts(t, block, insts).tables, block, x);
            LegaliseInsts(t, block, insts + [x]) == Outcome(last.tables, some.insts + last.insts)
    decreases |insts|
  {
    hide LegaliseInst, KnownPredicate;
    if insts != [] {
      var first := LegaliseInst(t, block, insts[0]);
      LegaliseOneMore(first.tables, block, insts[1..], x);
      assert (insts + [x])[1..] == insts[1..] + [x];
    } else {
      assert [x][1..] == [];
    }
  }

  // --- what is left ----------------------------------------------------------------

  predicate NeedsRuntime(inst: Inst) {
    IsCompare(inst) || HelperFor(inst).Some?
  }

  lemma OneLegal(t: Tables, block: nat, inst: Inst)
    requires KnownPredicate(inst)
    ensures forall x | x in LegaliseInst(t, block, inst).insts :: !NeedsRuntime(x)
    ensures |LegaliseInst(t, block, inst).insts| > 0
  {
    if IsCompare(inst) {
      PlanDecides(inst.subop, Less);
    }
  }

  // No comparison of binary128 values and nothing else the machine cannot do.
  lemma {:induction false} NothingLeft(t: Tables, block: nat, insts: seq<Inst>)
    requires KnownPredicates(insts)
    ensures forall x | x in LegaliseInsts(t, block, insts).insts :: !NeedsRuntime(x)
    decreases |insts|
  {
    hide LegaliseInst, NeedsRuntime;
    if insts != [] {
      OneLegal(t, block, insts[0]);
      NothingLeft(LegaliseInst(t, block, insts[0]).tables, block, insts[1..]);
    }
  }

  // Legal code is left alone.
  lemma {:induction false} LegalUnchanged(t: Tables, block: nat, insts: seq<Inst>)
    requires KnownPredicates(insts) && forall x | x in insts :: !NeedsRuntime(x)
    ensures LegaliseInsts(t, block, insts) == Outcome(t, insts)
    decreases |insts|
  {
    if insts != [] {
      assert insts[0] in insts;
      LegalUnchanged(t, block, insts[1..]);
      assert insts == [insts[0]] + insts[1..];
    }
  }

  // --- ids --------------------------------------------------------------------------

  // The results numbered above n, in order.
  function NewResults(insts: seq<Inst>, n: nat): seq<nat> {
    if insts == [] then []
    else (if insts[0].result > n then [insts[0].result] else []) + NewResults(insts[1..], n)
  }

  // What an instruction is known by from outside.
  function OldResults(insts: seq<Inst>, n: nat): seq<(nat, nat, seq<Edge>)> {
    if insts == [] then []
    else (if insts[0].result > n then [] else [(insts[0].addr, insts[0].result, insts[0].edges)]) + OldResults(insts[1..], n)
  }

  function UpTo(from: nat, to: nat): seq<nat> {
    if from >= to then [] else UpTo(from, to - 1) + [to]
  }

  lemma {:induction false} UpToJoins(a: nat, b: nat, c: nat)
    requires a <= b <= c
    ensures UpTo(a, b) + UpTo(b, c) == UpTo(a, c)
  {
    if b < c {
      UpToJoins(a, b, c - 1);
      assert UpTo(a, b) + UpTo(b, c) == UpTo(a, b) + UpTo(b, c - 1) + [c];
    }
  }

  lemma {:induction false} ResultsJoin(xs: seq<Inst>, ys: seq<Inst>, n: nat)
    ensures NewResults(xs + ys, n) == NewResults(xs, n) + NewResults(ys, n)
    ensures OldResults(xs + ys, n) == OldResults(xs, n) + OldResults(ys, n)
  {
    if xs == [] {
      assert xs + ys == ys;
    } else {
      assert (xs + ys)[1..] == xs[1..] + ys;
      ResultsJoin(xs[1..], ys, n);
    }
  }

  lemma OneNumbered(t: Tables, block: nat, inst: Inst, n: nat)
    requires KnownPredicate(inst) && inst.result <= n <= |t.vals|
    ensures var o := LegaliseInst(t, block, inst);
            && |o.tables.vals| >= |t.vals| && t.vals <= o.tables.vals && t.syms <= o.tables.syms
            && NewResults(o.insts, n) == UpTo(|t.vals|, |o.tables.vals|)
            && OldResults(o.insts, n) == [(inst.addr, inst.result, inst.edges)]
  {
    var o := LegaliseInst(t, block, inst);
    if IsCompare(inst) {
      var k := |t.vals|;
      if o.insts != [] && |o.insts| == 2 {
        ResultsOfTwo(o.insts[0], o.insts[1], n);
        assert UpTo(k, k + 1) == [k + 1];
      } else {
        ResultsOfFive(o.insts, n);
        assert UpTo(k, k + 2) == UpTo(k, k + 1) + [k + 2] == [k + 1, k + 2];
        assert UpTo(k, k + 4) == UpTo(k, k + 3) + [k + 4] == [k + 1, k + 2, k + 3, k + 4];
      }
    } else {
      assert o.insts[1..] == [];
    }
  }

  lemma ResultsOfTwo(a: Inst, b: Inst, n: nat)
    requires a.result > n >= b.result
    ensures NewResults([a, b], n) == [a.result] && OldResults([a, b], n) == [(b.addr, b.result, b.edges)]
  {
    var rest: seq<Inst> := [b];
    assert [a, b][1..] == rest && rest[1..] == [];
    assert NewResults(rest, n) == [] && OldResults(rest, n) == [(b.addr, b.result, b.edges)];
  }

  lemma ResultsOfFive(xs: seq<Inst>, n: nat)
    requires |xs| == 5 && forall i | 0 <= i < 4 :: xs[i].result > n
    requires xs[4].result <= n
    ensures NewResults(xs, n) == [xs[0].result, xs[1].result, xs[2].result, xs[3].result]
    ensures OldResults(xs, n) == [(xs[4].addr, xs[4].result, xs[4].edges)]
  {
    assert xs == [xs[0]] + ([xs[1]] + ([xs[2]] + [xs[3], xs[4]]));
    ResultsOfTwo(xs[3], xs[4], n);
    ResultsJoin([xs[2]], [xs[3], xs[4]], n);
    ResultsJoin([xs[1]], [xs[2]] + [xs[3], xs[4]], n);
    ResultsJoin([xs[0]], [xs[1]] + ([xs[2]] + [xs[3], xs[4]]), n);
  }

  // The instructions there were keep identity, id and edges, in order; the new
  // ones define the ids after those in use, each once.
  lemma {:induction false} IdsFresh(t: Tables, block: nat, insts: seq<Inst>, n: nat)
    requires KnownPredicates(insts) && n <= |t.vals| && forall i | 0 <= i < |insts| :: insts[i].result <= n
    ensures var o := LegaliseInsts(t, block, insts);
            && |o.tables.vals| >= |t.vals| && t.vals <= o.tables.vals && t.syms <= o.tables.syms
            && NewResults(o.insts, n) == UpTo(|t.vals|, |o.tables.vals|)
            && OldResults(o.insts, n) == OldResults(insts, n)
    decreases |insts|
  {
    hide LegaliseInst, KnownPredicate;
    if insts != [] {
      var first := LegaliseInst(t, block, insts[0]);
      OneNumbered(t, block, insts[0], n);
      IdsFresh(first.tables, block, insts[1..], n);
      var rest := LegaliseInsts(first.tables, block, insts[1..]);
      ResultsJoin(first.insts, rest.insts, n);
      UpToJoins(|t.vals|, |first.tables.vals|, |rest.tables.vals|);
    }
  }

  // --- a whole function -----------------------------------------------------------------

  datatype Legalised = Legalised(tables: Tables, blocks: seq<Block>)

  predicate AllKnown(blocks: seq<Block>) {
    forall b | 0 <= b < |blocks| :: KnownPredicates(blocks[b].insts)
  }

  // The first k blocks done.
  function LegaliseBlocks(t: Tables, blocks: seq<Block>, k: nat): (r: Legalised)
    requires AllKnown(blocks) && k <= |blocks|
    ensures |r.blocks| == k
  {
    if k == 0 then Legalised(t, [])
    else
      var before := LegaliseBlocks(t, blocks, k - 1);
      var o := LegaliseInsts(before.tables, k, blocks[k - 1].insts);
      Legalised(o.tables, before.blocks + [blocks[k - 1].(insts := o.insts)])
  }

  function InstCount(blocks: seq<Block>, k: nat): nat
    requires k <= |blocks|
  {
    if k == 0 then 0 else InstCount(blocks, k - 1) + |blocks[k - 1].insts|
  }

  // Block i is done starting from the tables the blocks before it left.
  lemma {:induction false} BlockDone(t: Tables, blocks: seq<Block>, i: nat, k: nat)
    requires AllKnown(blocks) && i < k <= |blocks|
    ensures var r := LegaliseBlocks(t, blocks, k);
            r.blocks[i] == blocks[i].(insts := LegaliseInsts(LegaliseBlocks(t, blocks, i).tables, i + 1, blocks[i].insts).insts)
  {
    hide LegaliseInsts, AllKnown;
    if i < k - 1 {
      BlockDone(t, blocks, i, k - 1);
    }
  }

  // No block of the finished function holds anything for the runtime to do.
  lemma FunctionLegal(t: Tables, blocks: seq<Block>)
    requires AllKnown(blocks)
    ensures forall b, x | 0 <= b < |blocks| && x in LegaliseBlocks(t, blocks, |blocks|).blocks[b].insts :: !NeedsRuntime(x)
  {
    forall b: nat, x | b < |blocks| && x in LegaliseBlocks(t, blocks, |blocks|).blocks[b].insts
      ensures !NeedsRuntime(x)
    {
      BlockDone(t, blocks, b, |blocks|);
      NothingLeft(LegaliseBlocks(t, blocks, b).tables, b + 1, blocks[b].insts);
    }
  }
}
