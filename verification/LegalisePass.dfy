/** The legalisation pass: one walk over each block, splicing instructions in ahead
    of the cursor. */
module LegalisePass {
  import opened Ir
  import opened Binary128
  import opened Probing
  import opened Legalise

  // The module's symbols, one function's values, and the list of one block
  // with the cursor on the instruction being looked at.
  class Walk {
    var syms: seq<string>
    var vals: seq<ValInfo>
    var insts: seq<Inst>
    var at: nat

    constructor (t: Tables)
      ensures syms == t.syms && vals == t.vals && insts == [] && at == 0
    {
      syms, vals, insts, at := t.syms, t.vals, [], 0;
    }

    ghost function Now(): Tables
      reads this
    {
      Tables(syms, vals)
    }

    method IrSym(name: string) returns (callee: nat)
      modifies this`syms
      ensures callee == Find(old(syms), name) && Now() == AddSym(old(Now()), name)
    {
      callee := Find(syms, name);
      if callee == |syms| {
        syms := syms + [name];
      }
    }

    method AllocValue(block: nat) returns (v: nat)
      modifies this`vals
      ensures v == |old(vals)| + 1 && Now() == AddValue(old(Now()), block)
    {
      vals := vals + [ValInfo(TYPE_I32, DefInst, block, 0)];
      v := |vals|;
    }

    method SpliceBefore(inst: Inst)
      requires at < |insts|
      modifies this`insts, this`at
      ensures insts == old(insts)[..old(at)] + [inst] + old(insts)[old(at)..] && at == old(at) + 1
      ensures at < |insts| && insts[at] == old(insts[at])
    {
      insts := insts[..at] + [inst] + insts[at..];
      at := at + 1;
    }

    method InsertLibcall(block: nat, name: string) returns (v: nat)
      requires at < |insts|
      modifies this`syms, this`vals, this`insts, this`at
      ensures v == |old(vals)| + 1 && Now() == AddValue(AddSym(old(Now()), name), block)
      ensures insts == old(insts)[..old(at)] + [LibcallInst(Find(old(syms), name), v, old(insts)[old(at)].ops)] + old(insts)[old(at)..]
      ensures at == old(at) + 1 < |insts| && insts[at] == old(insts[at])
    {
      var callee := IrSym(name);
      v := AllocValue(block);
      SpliceBefore(LibcallInst(callee, v, insts[at].ops));
    }

    method InsertTest(block: nat, tested: nat, pred: nat) returns (v: nat)
      requires at < |insts|
      modifies this`vals, this`insts, this`at
      ensures v == |old(vals)| + 1 && Now() == AddValue(old(Now()), block)
      ensures insts == old(insts)[..old(at)] + [TestInst(pred, v, tested)] + old(insts)[old(at)..]
      ensures at == old(at) + 1 < |insts| && insts[at] == old(insts[at])
    {
      v := AllocValue(block);
      SpliceBefore(TestInst(pred, v, tested));
    }

    // The comparison under the cursor becomes the last of the instructions
    // that decide it.
    method RewriteCompare(block: nat, plan: CmpPlan)
      requires at < |insts|
      modifies this
      ensures var o := CompareOutcome(old(Now()), block, old(insts)[old(at)], plan);
              && Now() == o.tables && insts == old(insts)[..old(at)] + o.insts + old(insts)[old(at) + 1..]
              && at + 1 == old(at) + |o.insts| && |insts| == |old(insts)| - 1 + |o.insts|
    {
      match plan
      case OneCall(call, pred) =>
        ghost var was, k := insts, at;
        var first := InsertLibcall(block, call);
        ghost var c1 := insts[k];
        insts := insts[at := AsTest(insts[at], IR_ICMP, pred, [ValueOperand(first), ZeroOperand])];
        assert insts == was[..k] + [c1, insts[at]] + was[k + 1..];
      case TwoCalls(_, _, _, _, _) =>
        RewriteTwoCalls(block, plan);
    }

    method RewriteTwoCalls(block: nat, plan: CmpPlan)
      requires at < |insts| && plan.TwoCalls?
      modifies this
      ensures var o := CompareOutcome(old(Now()), block, old(insts)[old(at)], plan);
              && Now() == o.tables && insts == old(insts)[..old(at)] + o.insts + old(insts)[old(at) + 1..]
              && at + 1 == old(at) + |o.insts| && |insts| == |old(insts)| - 1 + |o.insts|
    {
      hide LibcallInst, TestInst, AsTest;
      ghost var was, k := insts, at;
      var first := InsertLibcall(block, plan.call);
      ghost var c1 := insts[k];
      var second := InsertLibcall(block, plan.call2);
      ghost var c2 := insts[k + 1];
      SplicedTwice(was, k, c1, c2);
      ghost var i2 := insts;
      var a := InsertTest(block, first, plan.pred);
      var b := InsertTest(block, second, plan.pred2);
      SplicedTwice(i2, k + 2, TestInst(plan.pred, a, first), TestInst(plan.pred2, b, second));
      ghost var i4 := insts;
      insts := insts[at := AsTest(insts[at], plan.combine, 0, [ValueOperand(a), ValueOperand(b)])];
      SplicedFive(was, k, c1, c2, TestInst(plan.pred, a, first), TestInst(plan.pred2, b, second), i2, i4, insts);
    }

    method RewriteAsCall(name: string)
      requires at < |insts|
      modifies this`syms, this`insts
      ensures Now() == AddSym(old(Now()), name)
      ensures insts == old(insts)[at := AsCall(old(insts)[at], Find(old(syms), name))]
    {
      var callee := IrSym(name);
      insts := insts[at := AsCall(insts[at], callee)];
    }

    // The instruction under the cursor; the cursor ends on the last of those
    // that take its place.
    method Visit(block: nat) returns (ok: bool)
      requires at < |insts|
      modifies this
      ensures ok <==> KnownPredicate(old(insts[at]))
      ensures ok ==>
                var o := LegaliseInst(old(Now()), block, old(insts[at]));
                Now() == o.tables && insts == old(insts)[..old(at)] + o.insts + old(insts)[old(at) + 1..] && at + 1 == old(at) + |o.insts|
    {
      hide CompareOutcome, HelperFor, AsCall, AsTest, ComparePlan;
      if IsCompare(insts[at]) {
        if insts[at].subop > FCMP_UNO {
          return false;
        }
        RewriteCompare(block, ComparePlan(insts[at].subop).value);
      } else {
        var name := HelperFor(insts[at]);
        if name.Some? {
          RewriteAsCall(name.value);
        }
      }
      return true;
    }

    // One block. A comparison with an unknown predicate is an internal error.
    method LegaliseBlock(block: nat) returns (ok: bool)
      requires at == 0
      modifies this
      ensures ok <==> KnownPredicates(old(insts))
      ensures ok ==> var o := LegaliseInsts(old(Now()), block, old(insts)); Now() == o.tables && insts == o.insts
    {
      hide LegaliseInst, LegaliseInsts, KnownPredicate;
      ghost var was, t, k := insts, Now(), 0;
      StartsEmpty(t, block, was);
      while at < |insts|
        invariant 0 <= k <= |was| && KnownPredicates(was[..k])
        invariant var o := LegaliseInsts(t, block, was[..k]);
                  Now() == o.tables && insts == o.insts + was[k..] && at == |o.insts|
        decreases |was| - k
      {
        ghost var done := LegaliseInsts(t, block, was[..k]);
        CursorSplits(insts, done.insts, was, k);
        ok := Visit(block);
        if !ok {
          return;
        }
        LegaliseOneMore(t, block, was[..k], was[k]);
        assert was[..k + 1] == was[..k] + [was[k]];
        k := k + 1;
        at := at + 1;
      }
      assert was[..k] == was;
      return true;
    }
  }

  lemma CursorSplits(insts: seq<Inst>, done: seq<Inst>, was: seq<Inst>, k: nat)
    requires k < |was| && insts == done + was[k..]
    ensures |done| < |insts| && insts[|done|] == was[k] && insts[..|done|] == done && insts[|done| + 1..] == was[k + 1..]
  {
  }

  lemma StartsEmpty(t: Tables, block: nat, was: seq<Inst>)
    ensures was[..0] == [] && KnownPredicates([]) && LegaliseInsts(t, block, []) == Outcome(t, []) && was[0..] == was
  {
  }

  lemma SplicedTwice(was: seq<Inst>, k: nat, a: Inst, b: Inst)
    requires k < |was|
    ensures var once := was[..k] + [a] + was[k..]; once[..k + 1] + [b] + once[k + 1..] == was[..k] + [a, b] + was[k..]
  {
  }

  lemma SplicedFive(was: seq<Inst>, k: nat, a: Inst, b: Inst, c: Inst, d: Inst, i2: seq<Inst>, i4: seq<Inst>, i5: seq<Inst>)
    requires k < |was| && i2 == was[..k] + [a, b] + was[k..]
    requires i4 == i2[..k + 2] + [c, d] + i2[k + 2..] && |i5| == |i4| && i5 == i4[k + 4 := i5[k + 4]]
    ensures i5 == was[..k] + [a, b, c, d, i5[k + 4]] + was[k + 1..]
  {
    assert i2[..k + 2] == was[..k] + [a, b] && i2[k + 2..] == was[k..];
    assert i4 == was[..k] + [a, b, c, d] + was[k..];
  }

  // A whole function, block after block.
  method LowerLegalizeF128(t: Tables, blocks: seq<Block>) returns (ok: bool, r: Legalised)
    ensures ok <==> AllKnown(blocks)
    ensures ok ==> r == LegaliseBlocks(t, blocks, |blocks|)
    ensures ok ==> forall b, x | 0 <= b < |r.blocks| && x in r.blocks[b].insts :: !NeedsRuntime(x)
  {
    hide LegaliseInsts;
    var walk := new Walk(t);
    var b := 0;
    r := Legalised(t, []);
    while b < |blocks|
      invariant 0 <= b <= |blocks| && fresh(walk)
      invariant AllKnown(blocks[..b]) && r == LegaliseBlocks(t, blocks[..b], b) && walk.Now() == r.tables
    {
      walk.insts, walk.at := blocks[b].insts, 0;
      ok := walk.LegaliseBlock(b + 1);
      if !ok {
        assert !KnownPredicates(blocks[b].insts);
        return;
      }
      NextBlock(t, blocks, b);
      r := Legalised(Tables(walk.syms, walk.vals), r.blocks + [blocks[b].(insts := walk.insts)]);
      b := b + 1;
    }
    assert blocks[..b] == blocks;
    FunctionLegal(t, blocks);
    ok := true;
  }

  lemma {:induction false} BlocksBefore(t: Tables, some: seq<Block>, all: seq<Block>, k: nat)
    requires k <= |some| && some <= all && AllKnown(some) && AllKnown(all)
    ensures LegaliseBlocks(t, some, k) == LegaliseBlocks(t, all, k)
  {
    hide LegaliseInsts;
    if k > 0 {
      BlocksBefore(t, some, all, k - 1);
    }
  }

  lemma NextBlock(t: Tables, blocks: seq<Block>, b: nat)
    requires b < |blocks| && AllKnown(blocks[..b]) && KnownPredicates(blocks[b].insts)
    ensures AllKnown(blocks[..b + 1])
    ensures var before := LegaliseBlocks(t, blocks[..b], b);
            var o := LegaliseInsts(before.tables, b + 1, blocks[b].insts);
            LegaliseBlocks(t, blocks[..b + 1], b + 1) == Legalised(o.tables, before.blocks + [blocks[b].(insts := o.insts)])
  {
    assert AllKnown(blocks[..b + 1]);
    assert blocks[..b] <= blocks[..b + 1];
    BlocksBefore(t, blocks[..b], blocks[..b + 1], b);
  }
}
